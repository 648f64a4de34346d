/** VCService: the methods that write the rows, the list and the cache, each
    proved to take the state where the lifecycle functions say. */
module VcService {
  import opened Common
  import opened Credentials
  import opened Cache
  import opened VcStore
  import opened VcLifecycle
  import StatusList

  class VcService {
    const driver: VcDriver
    const cache: TwoLayerCache<StatusList.Bits>
    const issuer: Wallet
    const apiBase: string
    const cacheTtl: int

    constructor (driver: VcDriver, cache: TwoLayerCache<StatusList.Bits>, issuer: Wallet, apiBase: string,
                 cacheTtl: int)
      ensures this.driver == driver && this.cache == cache
      ensures this.issuer == issuer && this.apiBase == apiBase && this.cacheTtl == cacheTtl
    {
      this.driver, this.cache := driver, cache;
      this.issuer, this.apiBase, this.cacheTtl := issuer, apiBase, cacheTtl;
    }

    function Cfg(): Platform {
      Platform(issuer, apiBase, cacheTtl, cache.Config())
    }

    ghost function Footprint(): set<object> {
      {driver} + cache.Footprint()
    }

    ghost function State(): Sys
      reads Footprint()
    {
      Sys(driver.State(), cache.State())
    }

    /** The tail shared by revokeVC and retire. */
    method RevokeRow(id: VcId, now: int) returns (r: Result<int, Error>)
      modifies Footprint()
      ensures Outcome(State(), r) == VcLifecycle.RevokeRow(Cfg(), old(State()), id, now)
    {
      if driver.list.None? {
        return Err(StatusListMissing);
      }
      if id !in driver.vcs {
        return Err(VcNotFound);
      }
      var record, list := driver.vcs[id], driver.list.value;
      var owns := OnDefaultList(Cfg(), record.vc);
      var bits := Some(list.bits);
      if owns {
        bits := StatusList.SetBit(list.bits, record.statusListIndex, true);
      }
      if bits.None? {
        return Err(StatusIndexOutOfBounds);
      }
      var updated := driver.RevokeVc(id, bits.value, now);
      if owns {
        cache.Delete(LIST_ID);
      }
      return Ok(now);
    }

    method RevokeVC(id: VcId, now: int) returns (r: Result<int, Error>)
      modifies Footprint()
      ensures Outcome(State(), r) == VcLifecycle.RevokeVC(Cfg(), old(State()), id, now)
    {
      if id !in driver.vcs {
        return Err(VcNotFound);
      }
      if driver.vcs[id].revokedAt.Some? {
        return Err(VcAlreadyRevoked);
      }
      r := RevokeRow(id, now);
    }

    method Retire(id: VcId, now: int) returns (r: Result<bool, Error>)
      modifies Footprint()
      ensures Outcome(State(), r) == VcLifecycle.Retire(Cfg(), old(State()), id, now)
    {
      if ActiveChildren(driver.State(), id, now) != [] {
        return Ok(false);
      }
      var revoked := RevokeRow(id, now);
      return if revoked.Err? then Err(revoked.error) else Ok(true);
    }

    method RetireAll(ids: seq<VcId>, successor: Option<VcId>, done: Retirements, now: int)
      returns (r: Result<Retirements, Error>)
      modifies Footprint()
      ensures Outcome(State(), r) == VcLifecycle.RetireAll(Cfg(), old(State()), ids, successor, done, now)
    {
      var lists := done;
      var i := 0;
      while i < |ids|
        invariant 0 <= i <= |ids|
        invariant VcLifecycle.RetireAll(Cfg(), old(State()), ids, successor, done, now)
               == VcLifecycle.RetireAll(Cfg(), State(), ids[i..], successor, lists, now)
      {
        var sibling := ids[i];
        assert ids[i..][0] == sibling && ids[i..][1..] == ids[i + 1..];
        if sibling !in driver.vcs {
          return Err(VcNotFound);
        }
        if successor.Some? {
          var _ := driver.MarkAsRenewed(sibling, successor.value);
        }
        var retired := Retire(sibling, now);
        if retired.Err? {
          return Err(retired.error);
        }
        lists := Record(lists, sibling, retired.value);
        i := i + 1;
      }
      return Ok(lists);
    }

    method ReconcileActive(vc: Credential, revokeExisting: bool, now: int) returns (r: Result<Reconciled, Error>)
      modifies Footprint()
      ensures Outcome(State(), r) == Reconcile(Cfg(), old(State()), vc, revokeExisting, now)
    {
      if !HasIdentity(vc) {
        return Ok(Reconciled([], [], []));
      }
      var st := driver.State();
      var siblings := Siblings(st, vc, now);
      var same := Filter(id => SameScopes(st, id, vc), siblings);
      var others := if revokeExisting then Filter(id => !SameScopes(st, id, vc), siblings) else [];
      var a := RetireAll(same, Some(vc.body.id), Retirements([], []), now);
      if a.Err? {
        return Err(a.error);
      }
      var b := RetireAll(others, None, Retirements([], a.value.retained), now);
      if b.Err? {
        return Err(b.error);
      }
      return Ok(Reconciled(a.value.retired, b.value.retired, b.value.retained));
    }

    method RegisterSignedVC(vc: Credential, revokeExisting: bool, now: int) returns (r: Result<Reconciled, Error>)
      modifies Footprint()
      ensures Outcome(State(), r) == VcLifecycle.RegisterSignedVC(Cfg(), old(State()), vc, revokeExisting, now)
    {
      driver.CreateVc(SignedRow(Cfg(), vc));
      r := ReconcileActive(vc, revokeExisting, now);
    }

    method RegisterIssuedGrant(vc: Credential, subjectKnown: bool, revokeExisting: bool, now: int)
      returns (r: Result<Reconciled, Error>)
      modifies Footprint()
      ensures Outcome(State(), r)
           == VcLifecycle.RegisterIssuedGrant(Cfg(), old(State()), vc, subjectKnown, revokeExisting, now)
    {
      if !subjectKnown {
        return Err(VcSubjectDidNotFound);
      }
      driver.CreateVc(GrantRow(vc));
      r := ReconcileActive(vc, revokeExisting, now);
    }

    method RegisterExternalVC(vc: Credential, check: ProofCheck, subjectKnown: bool, revokeExisting: bool, now: int)
      returns (r: Result<Registered, Error>)
      modifies Footprint()
      ensures Outcome(State(), r)
           == VcLifecycle.RegisterExternalVC(Cfg(), old(State()), vc, check, subjectKnown, revokeExisting, now)
    {
      if vc.body.id in driver.vcs {
        return Ok(AlreadyRegistered);
      }
      if check != Verified {
        return Err(match check case NoProof => ValidationError
                               case IssuerUnresolved => VcIssuerNotFound
                               case _ => VcSignatureInvalid);
      }
      if vc.body.untilUnreadable {
        return Err(ValidationError);
      }
      if vc.body.validUntil.Some? && vc.body.validUntil.value <= now {
        return Err(VcExpired);
      }
      if !subjectKnown {
        return Err(VcSubjectDidNotFound);
      }
      driver.CreateVc(ExternalRow(vc));
      var reconciled := ReconcileActive(vc, revokeExisting, now);
      return if reconciled.Err? then Err(reconciled.error) else Ok(NewlyRegistered(reconciled.value));
    }

    method EnsureDefaultList(now: int)
      modifies Footprint()
      ensures State() == WithDefaultList(Cfg(), old(State()), now)
    {
      if driver.list.None? {
        var bits := StatusList.Empty(StatusList.DEFAULT_BITS);
        driver.CreateStatusList(bits);
        cache.Set(LIST_ID, bits, cacheTtl, now);
      }
    }

    method ClaimStatusListEntry(now: int) returns (r: Result<nat, Error>)
      modifies Footprint()
      ensures Outcome(State(), r) == VcLifecycle.ClaimStatusListEntry(Cfg(), old(State()), now)
    {
      EnsureDefaultList(now);
      if driver.list.value.nextIndex >= StatusList.DEFAULT_BITS {
        return Err(StatusListIndexExhausted);
      }
      r := driver.ClaimNextIndex();
    }

    method IssueVC(p: IssueParams, subjectKnown: bool, keyMatches: bool, now: int, id: VcId)
      returns (r: Result<Issued, Error>)
      modifies Footprint()
      ensures Outcome(State(), r) == VcLifecycle.IssueVC(Cfg(), old(State()), p, subjectKnown, keyMatches, now, id)
    {
      var fault := IssueFault(p, subjectKnown);
      if fault.Some? {
        return Err(fault.value);
      }
      EnsureDefaultList(now);
      if driver.list.value.nextIndex >= StatusList.DEFAULT_BITS {
        return Err(StatusListIndexExhausted);
      }
      if !keyMatches {
        return Err(IssuerKeyMismatch);
      }
      var claimed := driver.ClaimNextIndex();
      var vc := IssuedCredential(Cfg(), p, claimed.value, now, id);
      driver.CreateVc(IssuedRow(p, vc, claimed.value));
      var reconciled := ReconcileActive(vc, p.revokeExisting, now);
      return if reconciled.Err? then Err(reconciled.error) else Ok(Issued(vc, claimed.value, reconciled.value));
    }

    method RenewVC(id: VcId, o: RenewOptions, subjectKnown: bool, keyMatches: bool, now: int, newId: VcId)
      returns (r: Result<Issued, Error>)
      modifies Footprint()
      ensures Outcome(State(), r)
           == VcLifecycle.RenewVC(Cfg(), old(State()), id, o, subjectKnown, keyMatches, now, newId)
    {
      if id !in driver.vcs {
        return Err(VcNotFound);
      }
      if driver.vcs[id].revokedAt.Some? {
        return Err(VcAlreadyRevoked);
      }
      r := IssueVC(RenewParams(driver.vcs[id], o), subjectKnown, keyMatches, now, newId);
      if r.Ok? {
        var _ := driver.MarkAsRenewed(id, newId);
      }
    }

    method GetStatusList(now: int) returns (r: Result<StatusList.Bits, Error>)
      modifies Footprint()
      ensures Outcome(State(), r) == VcLifecycle.GetStatusList(Cfg(), old(State()), now)
    {
      var cached := cache.Get(LIST_ID, now);
      if cached.Some? {
        return Ok(cached.value);
      }
      if driver.list.None? {
        return Err(StatusListNotFound);
      }
      cache.Set(LIST_ID, driver.list.value.bits, cacheTtl, now);
      return Ok(driver.list.value.bits);
    }
  }
}
