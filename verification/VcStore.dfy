/** The credential rows and the default status list: InMemoryVcStorageDriver and
    the lookup columns derived from a credential. */
module VcStore {
  import opened Common
  import opened Credentials
  import Scopes
  import StatusList

  /** The values a row stores beside the credential to find it by. */
  datatype Columns = Columns(
    vcType: Option<string>,
    issuerDid: Option<Did>,
    userDid: Option<string>,
    scopeKey: Option<string>)

  function OwnType(types: seq<string>): Option<string> {
    if types == [] then None
    else if types[0] != BASE_TYPE then Some(types[0])
    else OwnType(types[1..])
  }

  function LookupColumns(vc: Credential): Columns {
    var subject := vc.body.subject;
    var scopes := if subject.claims.scopes.Some? then subject.claims.scopes else subject.privilegeScopes;
    Columns(
      OwnType(vc.body.types),
      Some(vc.body.issuer),
      subject.claims.userDid,
      if scopes.Some? then Some(Scopes.ScopeKey(scopes.value)) else None)
  }

  datatype SubjectType = AgentSubject | UserSubject

  datatype VcRecord = VcRecord(
    vcId: VcId,
    subjectDid: Did,
    subjectType: SubjectType,
    vc: Credential,
    privilegeScopes: Option<seq<Scope>>,
    statusListIndex: int,
    expiresAt: Option<int>,
    revokedAt: Option<int>,
    renewedBy: Option<VcId>,
    parentVcId: Option<VcId>,
    columns: Columns)

  datatype StatusEntry = StatusEntry(bits: StatusList.Bits, nextIndex: nat)

  /** The rows by id, the ids in insertion order, and the default list. */
  datatype Store = Store(vcs: map<VcId, VcRecord>, order: seq<VcId>, list: Option<StatusEntry>)

  datatype Identity = Identity(vcType: Option<string>, issuerDid: Option<Did>, subjectDid: Did, userDid: Option<string>)

  function IdentityOf(r: VcRecord): Identity {
    Identity(r.columns.vcType, r.columns.issuerDid, r.subjectDid, r.columns.userDid)
  }

  /** Unrevoked and unexpired. */
  predicate IsActive(r: VcRecord, now: int) {
    r.revokedAt.None? && (r.expiresAt.Some? ==> r.expiresAt.value > now)
  }

  /** The ids of the rows that pass, in insertion order. */
  function Select(st: Store, p: VcRecord -> bool): (ids: seq<VcId>)
    ensures forall id :: id in ids <==> id in st.order && id in st.vcs && p(st.vcs[id])
  {
    Filter(id => id in st.vcs && p(st.vcs[id]), st.order)
  }

  function ActiveByIdentity(st: Store, identity: Identity, now: int): seq<VcId> {
    Select(st, (r: VcRecord) => IdentityOf(r) == identity && IsActive(r, now))
  }

  function ActiveChildren(st: Store, parent: VcId, now: int): seq<VcId> {
    Select(st, (r: VcRecord) => r.parentVcId == Some(parent) && IsActive(r, now))
  }

  function ActiveBySubject(st: Store, did: Did, vcType: string, now: int): seq<VcId> {
    Select(st, (r: VcRecord) => r.subjectDid == did && IsActive(r, now) && vcType in r.vc.body.types)
  }

  function CredentialsAt(st: Store, ids: seq<VcId>): (vcs: seq<Credential>)
    requires forall id :: id in ids ==> id in st.vcs
    ensures |vcs| == |ids| && forall i :: 0 <= i < |ids| ==> vcs[i] == st.vcs[ids[i]].vc
  {
    seq(|ids|, i requires 0 <= i < |ids| => assert ids[i] in ids; st.vcs[ids[i]].vc)
  }

  // ---- Writes --------------------------------------------------------------

  function WithRow(st: Store, r: VcRecord): Store {
    Store(st.vcs[r.vcId := r], if r.vcId in st.vcs then st.order else st.order + [r.vcId], st.list)
  }

  function WithList(st: Store, bits: StatusList.Bits): Store {
    st.(list := Some(StatusEntry(bits, 0)))
  }

  function Claimed(st: Store): Store
    requires st.list.Some?
  {
    st.(list := Some(st.list.value.(nextIndex := st.list.value.nextIndex + 1)))
  }

  function WithBits(st: Store, bits: StatusList.Bits): Store
    requires st.list.Some?
  {
    st.(list := Some(st.list.value.(bits := bits)))
  }

  function RowRevoked(st: Store, id: VcId, now: int): Store
    requires id in st.vcs
  {
    st.(vcs := st.vcs[id := st.vcs[id].(revokedAt := Some(now))])
  }

  function RowRenewed(st: Store, id: VcId, newId: VcId): Store
    requires id in st.vcs
  {
    st.(vcs := st.vcs[id := st.vcs[id].(renewedBy := Some(newId))])
  }

  class VcDriver {
    var vcs: map<VcId, VcRecord>
    var order: seq<VcId>
    var list: Option<StatusEntry>

    constructor ()
      ensures State() == Store(map[], [], None)
    {
      vcs, order, list := map[], [], None;
    }

    function State(): Store
      reads this
    {
      Store(vcs, order, list)
    }

    method CreateVc(r: VcRecord)
      modifies this
      ensures State() == WithRow(old(State()), r)
    {
      if r.vcId !in vcs {
        order := order + [r.vcId];
      }
      vcs := vcs[r.vcId := r];
    }

    method CreateStatusList(bits: StatusList.Bits)
      modifies this
      ensures State() == WithList(old(State()), bits)
    {
      list := Some(StatusEntry(bits, 0));
    }

    method ClaimNextIndex() returns (r: Result<nat, Error>)
      modifies this
      ensures old(list).None? ==> r == Err(StatusListNotFound) && State() == old(State())
      ensures old(list).Some? ==> r == Ok(old(list).value.nextIndex) && State() == Claimed(old(State()))
    {
      if list.None? {
        return Err(StatusListNotFound);
      }
      var claimed := list.value.nextIndex;
      list := Some(list.value.(nextIndex := claimed + 1));
      return Ok(claimed);
    }

    /** The list is written first, so a missing row leaves it written. */
    method RevokeVc(id: VcId, bits: StatusList.Bits, now: int) returns (r: Result<VcRecord, Error>)
      modifies this
      ensures old(list).None? ==> r == Err(StatusListNotFound) && State() == old(State())
      ensures old(list).Some? && id !in old(vcs) ==> r == Err(VcNotFound) && State() == WithBits(old(State()), bits)
      ensures old(list).Some? && id in old(vcs) ==>
                && State() == RowRevoked(WithBits(old(State()), bits), id, now)
                && r == Ok(vcs[id])
    {
      if list.None? {
        return Err(StatusListNotFound);
      }
      list := Some(list.value.(bits := bits));
      if id !in vcs {
        return Err(VcNotFound);
      }
      vcs := vcs[id := vcs[id].(revokedAt := Some(now))];
      return Ok(vcs[id]);
    }

    method MarkAsRenewed(id: VcId, newId: VcId) returns (r: Result<VcRecord, Error>)
      modifies this
      ensures id !in old(vcs) ==> r == Err(VcNotFound) && State() == old(State())
      ensures id in old(vcs) ==> State() == RowRenewed(old(State()), id, newId) && r == Ok(vcs[id])
    {
      if id !in vcs {
        return Err(VcNotFound);
      }
      vcs := vcs[id := vcs[id].(renewedBy := Some(newId))];
      return Ok(vcs[id]);
    }
  }
}
