/** What a reading of the status list can say: over all runs of any number of processes no
    reading flags a credential that is not revoked, and every list is read or cached as it
    was stored. */
module Readings {
  import opened Common
  import opened Credentials
  import Cache
  import opened VcStore
  import opened VcLifecycle
  import opened VcInvariants
  import opened AgentFlows
  import opened Runs
  import opened Processes
  import StatusList
  import Verifier
  import VerifierMeaning

  // ---- Cached copies are true ---------------------------------------------------------

  /** As long, and set nowhere the stored one is not. */
  ghost predicate Within(copy: Bits, stored: Bits) {
    && |copy| == |stored|
    && forall i :: 0 <= i < 8 * |copy| && StatusList.Bit(copy, i) ==> StatusList.Bit(stored, i)
  }

  ghost predicate CopyIsTrue(layer: Cache.Layer<Bits>, key: string, list: Option<StatusEntry>) {
    key in layer ==> list.Some? && Within(layer[key].value, list.value.bits)
  }

  ghost predicate CopiesAreTrue(cfg: Platform, s: Sys) {
    && CopyIsTrue(s.cache.l1, LIST_ID, s.store.list)
    && (s.cache.l2.Some? ==> CopyIsTrue(s.cache.l2.value, cfg.lifetimes.prefix + LIST_ID, s.store.list))
  }

  lemma GrownStaysTrue(layer: Cache.Layer<Bits>, key: string, a: Option<StatusEntry>, b: Option<StatusEntry>)
    requires CopyIsTrue(layer, key, a) && ListEvolves(a, b)
    ensures CopyIsTrue(layer, key, b)
  {
  }

  lemma UnservedIsTrue(cfg: Platform, s: Sys, t: Sys)
    requires Unserved(cfg, s, t) && CopiesAreTrue(cfg, s)
    ensures CopiesAreTrue(cfg, t)
  {
  }

  lemma FirstListIsTrue(cfg: Platform, s: Sys, now: int)
    requires CopiesAreTrue(cfg, s)
    ensures CopiesAreTrue(cfg, WithDefaultList(cfg, s, now))
  {
  }

  lemma ReadingIsTrue(cfg: Platform, s: Sys, now: int)
    requires CopiesAreTrue(cfg, s)
    ensures CopiesAreTrue(cfg, GetStatusList(cfg, s, now).sys)
  {
  }

  lemma CallIsTrue(cfg: Platform, dir: Directory, s: Sys, call: Call, now: int)
    requires CopiesAreTrue(cfg, s)
    ensures CopiesAreTrue(cfg, Apply(cfg, dir, s, call, now))
  {
    var t := Apply(cfg, dir, s, call, now);
    if call.ReadList? {
      ReadingIsTrue(cfg, s, now);
    } else if s.store.list.Some? {
      CallUnserved(cfg, dir, s, call, now);
      UnservedIsTrue(cfg, s, t);
    } else {
      FirstUse(cfg, dir, s, call, now);
      FirstListIsTrue(cfg, s, now);
      UnservedIsTrue(cfg, if Unserved(cfg, s, t) then s else WithDefaultList(cfg, s, now), t);
    }
  }

  /** Every process has a true copy or none. */
  ghost predicate AllTrue(cfg: Platform, y: System) {
    forall p :: CopiesAreTrue(cfg, View(y, p))
  }

  lemma TurnIsTrue(cfg: Platform, dir: Directory, y: System, e: Turn)
    requires AllTrue(cfg, y) && Inv(cfg, y.store) && Allowed(cfg, View(y, e.pid), e.call)
    ensures AllTrue(cfg, After(cfg, dir, y, e))
  {
    var t := Apply(cfg, dir, View(y, e.pid), e.call, e.at);
    CallIsTrue(cfg, dir, View(y, e.pid), e.call, e.at);
    ApplyKeeps(cfg, dir, View(y, e.pid), e.call, e.at);
    forall q ensures CopiesAreTrue(cfg, View(After(cfg, dir, y, e), q)) {
      if q != e.pid {
        assert CopiesAreTrue(cfg, View(y, q));
        GrownStaysTrue(OwnLayer(y, q), LIST_ID, y.store.list, t.store.list);
      }
    }
  }

  lemma {:induction false} AlwaysTrue(cfg: Platform, dir: Directory, turns: seq<Turn>, shared: bool, now: int)
    requires LegalTurns(cfg, dir, Boot(shared), turns, now)
    ensures AllTrue(cfg, RunAll(cfg, dir, Boot(shared), turns))
    ensures Inv(cfg, RunAll(cfg, dir, Boot(shared), turns).store)
    decreases turns
  {
    if turns != [] {
      var before, last := turns[..|turns| - 1], turns[|turns| - 1];
      AlwaysTrue(cfg, dir, before, shared, last.at);
      var y := RunAll(cfg, dir, Boot(shared), before);
      TurnIsTrue(cfg, dir, y, last);
      ApplyKeeps(cfg, dir, View(y, last.pid), last.call, last.at);
    } else {
      assert forall id :: !Listed(cfg, EMPTY_STORE, id);
    }
  }

  // ---- Readings -------------------------------------------------------------------------

  /** The credential's entry is on the platform's own list. */
  predicate OnList(cfg: Platform, vc: Credential) {
    && vc.body.status.Some?
    && vc.body.status.value.listUrl == cfg.apiBase + "/v1/status-list/" + "helix-status-list-1"
  }

  /** No revoked credential has this index on the list. */
  ghost predicate Unmarked(cfg: Platform, st: Store, i: int) {
    forall id :: id in st.vcs && OnList(cfg, st.vcs[id].vc) && st.vcs[id].statusListIndex == i ==>
      st.vcs[id].revokedAt.None?
  }

  /** Nothing usable under this key. */
  predicate Uncached(layer: Cache.Layer<Bits>, key: string, now: int) {
    key in layer ==> now > layer[key].expiresAt
  }

  predicate NothingCached(cfg: Platform, y: System, reader: nat, now: int) {
    && Uncached(OwnLayer(y, reader), "helix-status-list-1", now)
    && (y.l2.Some? ==> Uncached(y.l2.value, cfg.lifetimes.prefix + "helix-status-list-1", now))
  }

  lemma ReadWithin(cfg: Platform, s: Sys, now: int)
    requires CopiesAreTrue(cfg, s)
    ensures var read := GetStatusList(cfg, s, now).result;
            && (read.Ok? <==> s.store.list.Some?)
            && (read.Ok? ==> Within(read.value, s.store.list.value.bits))
            && (read.Err? ==> read.error == StatusListNotFound)
  {
  }

  lemma ClearInStore(cfg: Platform, st: Store, i: int)
    requires Inv(cfg, st) && st.list.Some? && 0 <= i < 131072
    requires Unmarked(cfg, st, i)
    ensures |st.list.value.bits| == 16384 && !StatusList.Bit(st.list.value.bits, i)
  {
  }

  lemma WithinReads(copy: Bits, stored: Bits, i: int)
    requires Within(copy, stored) && 0 <= i < 8 * |copy|
    ensures StatusList.GetBit(copy, i).Some?
    ensures StatusList.GetBit(copy, i) == Some(true) ==> StatusList.GetBit(stored, i) == Some(true)
    ensures !StatusList.Bit(stored, i) ==> StatusList.GetBit(copy, i) == Some(false)
  {
    StatusList.GetBitIsBit(copy, i);
    StatusList.GetBitIsBit(stored, i);
  }

  /** Nobody is flagged wrongly: over all runs of any number of processes, every reading of
      the list by any of them fails exactly while there is none, is 131072 bits long, has a
      bit set only if the stored list has it set at that moment, and reads 0 at every index
      but those of revoked credentials. */
  lemma ReadingsAreTrue(cfg: Platform, dir: Directory, turns: seq<Turn>, shared: bool, reader: nat, now: int)
    requires LegalTurns(cfg, dir, Boot(shared), turns, now)
    ensures var y := RunAll(cfg, dir, Boot(shared), turns);
            var st, read := y.store, GetStatusList(cfg, View(y, reader), now).result;
            && (read.Err? <==> st.list.None?)
            && (read.Err? ==> read.error == StatusListNotFound)
            && (read.Ok? ==>
                  && 8 * |read.value| == 131072
                  && (forall i :: 0 <= i < 131072 ==> StatusList.GetBit(read.value, i).Some?)
                  && (forall i :: StatusList.GetBit(read.value, i) == Some(true) ==>
                        StatusList.GetBit(st.list.value.bits, i) == Some(true))
                  && (forall i :: 0 <= i < 131072 && Unmarked(cfg, st, i) ==>
                        StatusList.GetBit(read.value, i) == Some(false)))
  {
    var y := RunAll(cfg, dir, Boot(shared), turns);
    var st, read := y.store, GetStatusList(cfg, View(y, reader), now).result;
    AlwaysTrue(cfg, dir, turns, shared, now);
    ReadWithin(cfg, View(y, reader), now);
    if read.Ok? {
      LengthIs(cfg, st);
      forall i | 0 <= i < 131072
        ensures StatusList.GetBit(read.value, i).Some?
        ensures StatusList.GetBit(read.value, i) == Some(true) ==>
                  StatusList.GetBit(st.list.value.bits, i) == Some(true)
        ensures Unmarked(cfg, st, i) ==> StatusList.GetBit(read.value, i) == Some(false)
      {
        WithinReads(read.value, st.list.value.bits, i);
        if Unmarked(cfg, st, i) {
          ClearInStore(cfg, st, i);
        }
      }
    }
  }

  lemma LengthIs(cfg: Platform, st: Store)
    requires Inv(cfg, st) && st.list.Some?
    ensures |st.list.value.bits| == 16384
  {
  }

  /** In particular a listed credential that is not revoked reads 0 wherever it is read. */
  lemma UnrevokedReadsClear(cfg: Platform, dir: Directory, turns: seq<Turn>, shared: bool, reader: nat, now: int,
                            id: VcId)
    requires LegalTurns(cfg, dir, Boot(shared), turns, now)
    requires var st := RunAll(cfg, dir, Boot(shared), turns).store;
             id in st.vcs && OnList(cfg, st.vcs[id].vc) && st.vcs[id].revokedAt.None?
    ensures var y := RunAll(cfg, dir, Boot(shared), turns);
            var read := GetStatusList(cfg, View(y, reader), now).result;
            && read.Ok? && 0 <= y.store.vcs[id].statusListIndex < 131072
            && y.store.vcs[id].vc.body.status.value.index == Some(y.store.vcs[id].statusListIndex)
            && StatusList.GetBit(read.value, y.store.vcs[id].statusListIndex) == Some(false)
  {
    var st := RunAll(cfg, dir, Boot(shared), turns).store;
    AlwaysTrue(cfg, dir, turns, shared, now);
    assert Listed(cfg, st, id);
    ReadingsAreTrue(cfg, dir, turns, shared, reader, now);
    forall other | other in st.vcs && OnList(cfg, st.vcs[other].vc)
                   && st.vcs[other].statusListIndex == st.vcs[id].statusListIndex
      ensures st.vcs[other].revokedAt.None?
    {
      assert Listed(cfg, st, other);
    }
  }

  /** And no verifier that looks at such a reading takes it for revoked. */
  lemma UnrevokedIsUnflagged(cfg: Platform, dir: Directory, turns: seq<Turn>, shared: bool, reader: nat, now: int,
                             id: VcId, w: Verifier.World)
    requires LegalTurns(cfg, dir, Boot(shared), turns, now)
    requires var y := RunAll(cfg, dir, Boot(shared), turns);
             var url := cfg.apiBase + "/v1/status-list/" + "helix-status-list-1";
             && id in y.store.vcs && OnList(cfg, y.store.vcs[id].vc) && y.store.vcs[id].revokedAt.None?
             && url in w.lists && Ok(w.lists[url]) == GetStatusList(cfg, View(y, reader), now).result
    ensures VerifierMeaning.Unflagged(RunAll(cfg, dir, Boot(shared), turns).store.vcs[id].vc, w)
  {
    var y := RunAll(cfg, dir, Boot(shared), turns);
    UnrevokedReadsClear(cfg, dir, turns, shared, reader, now, id);
    ReadBit(GetStatusList(cfg, View(y, reader), now).result.value, y.store.vcs[id].statusListIndex);
  }

  lemma ReadBit(bits: Bits, i: int)
    requires StatusList.GetBit(bits, i) == Some(false)
    ensures 0 <= i < 8 * |bits| && !StatusList.Bit(bits, i)
  {
    StatusList.GetBitIsBit(bits, i);
  }

  /** With nothing cached the reading is the stored list itself. With lifetimes that last,
      both layers then keep it for the seconds they may, so that a second reading by the
      same process, or by another over the same shared layer, is served the same bits. */
  lemma FreshReading(cfg: Platform, y: System, reader: nat, now: int)
    requires y.store.list.Some? && NothingCached(cfg, y, reader, now)
    ensures var read := GetStatusList(cfg, View(y, reader), now);
            var bits, key := y.store.list.value.bits, "helix-status-list-1";
            && read.result == Ok(bits) && read.sys.store == y.store
            && (cfg.cacheTtl > 0 && cfg.lifetimes.l1 > 0 ==>
                  && key in read.sys.cache.l1 && read.sys.cache.l1[key].value == bits
                  && read.sys.cache.l1[key].expiresAt ==
                     now + 1000 * if cfg.cacheTtl <= cfg.lifetimes.l1 then cfg.cacheTtl else cfg.lifetimes.l1)
            && (y.l2.Some? && cfg.cacheTtl > 0 && cfg.lifetimes.l2 > 0 ==>
                  && read.sys.cache.l2.Some? && cfg.lifetimes.prefix + key in read.sys.cache.l2.value
                  && read.sys.cache.l2.value[cfg.lifetimes.prefix + key].value == bits
                  && read.sys.cache.l2.value[cfg.lifetimes.prefix + key].expiresAt ==
                     now + 1000 * if cfg.cacheTtl <= cfg.lifetimes.l2 then cfg.cacheTtl else cfg.lifetimes.l2)
  {
  }

  /** While a process has a live copy of its own, that is what it reads. */
  lemma CachedReading(cfg: Platform, y: System, reader: nat, now: int)
    requires "helix-status-list-1" in OwnLayer(y, reader)
    requires now <= OwnLayer(y, reader)["helix-status-list-1"].expiresAt
    ensures GetStatusList(cfg, View(y, reader), now).result == Ok(OwnLayer(y, reader)["helix-status-list-1"].value)
  {
  }
}
