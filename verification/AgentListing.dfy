/** The public agent listing: the in-memory driver, its keyset pages against the
    one-shot listing, and its search against the SQLite predicate. */
module AgentListing {
  import opened Common
  import opened Ordering
  import Paging
  import opened Search

  datatype AgentRecord = AgentRecord(
    did: string,
    name: Option<string>,
    isPublic: bool,
    visibilityChangedAt: Option<int>,
    publishedAt: Option<int>,
    credentialVcId: Option<string>,
    credentialExpiresAt: Option<int>,
    revokedAt: Option<int>,
    createdAt: int,
    updatedAt: int)

  datatype StatusFilter = OnlyActive | OnlyRevoked | AnyStatus

  datatype Cursor = Cursor(publishedAt: int, did: string)

  datatype Query = Query(
    q: Option<string>,
    status: StatusFilter,
    limit: nat,
    after: Option<Cursor>,
    now: int)

  datatype PublicRow = PublicRow(did: string, name: Option<string>, publishedAt: int, active: bool)

  // ---- Which rows are listed ------------------------------------------------

  predicate IsActive(row: AgentRecord, now: int) {
    && row.revokedAt.None?
    && row.credentialVcId.Some?
    && (row.credentialExpiresAt.None? || row.credentialExpiresAt.value > now)
  }

  /** `lower` stands for toLowerCase. */
  predicate Found(lower: string -> string, row: AgentRecord, q: string) {
    (row.name.Some? && Includes(lower(row.name.value), lower(q))) || row.did == q
  }

  predicate Passes(lower: string -> string, query: Query, row: AgentRecord) {
    && row.isPublic
    && row.publishedAt.Some?
    && (query.status.OnlyActive? ==> IsActive(row, query.now))
    && (query.status.OnlyRevoked? ==> !IsActive(row, query.now))
    && (query.q.Some? ==> Found(lower, row, query.q.value))
    && (query.after.Some? ==>
          !(row.publishedAt.value > query.after.value.publishedAt
            || (row.publishedAt.value == query.after.value.publishedAt
                && !LexLess(query.after.value.did, row.did))))
  }

  // ---- Order, and the listing ------------------------------------------------

  /** Newest first, then by DID; a row that is not published comes nowhere. */
  predicate Before(a: AgentRecord, b: AgentRecord) {
    && a.publishedAt.Some? && b.publishedAt.Some?
    && (a.publishedAt.value > b.publishedAt.value
        || (a.publishedAt == b.publishedAt && LexLess(a.did, b.did)))
  }

  /** Everything the filters leave, in order. */
  function Matching(lower: string -> string, rows: seq<AgentRecord>, query: Query): (m: seq<AgentRecord>)
    ensures forall row :: row in m <==> row in rows && Passes(lower, query, row)
    ensures forall i :: 0 <= i < |m| ==> Passes(lower, query, m[i])
  {
    var m := Sort(Before, Filter(row => Passes(lower, query, row), rows));
    assert forall i :: 0 <= i < |m| ==> m[i] in m;
    m
  }

  function Shown(row: AgentRecord, now: int): PublicRow
    requires row.publishedAt.Some?
  {
    PublicRow(row.did, row.name, row.publishedAt.value, IsActive(row, now))
  }

  function ShownAll(rows: seq<AgentRecord>, now: int): (r: seq<PublicRow>)
    requires forall row :: row in rows ==> row.publishedAt.Some?
    ensures |r| == |rows| && forall i :: 0 <= i < |rows| ==> r[i] == Shown(rows[i], now)
  {
    seq(|rows|, i requires 0 <= i < |rows| => Shown(rows[i], now))
  }

  function Listing(lower: string -> string, rows: seq<AgentRecord>, query: Query): seq<PublicRow> {
    ShownAll(Paging.Take(Matching(lower, rows, query), query.limit), query.now)
  }

  /** At most one row per DID, as in the Map. */
  ghost predicate OnePerDid(rows: seq<AgentRecord>) {
    forall i, j :: 0 <= i < j < |rows| ==> rows[i].did != rows[j].did
  }

  lemma RowsOrdered(rows: seq<AgentRecord>)
    requires forall a, b :: a in rows && b in rows && a != b ==> a.did != b.did
    requires forall row :: row in rows ==> row.publishedAt.Some?
    ensures OrderOn(Before, rows)
  {
    forall a, b | a in rows && b in rows && a != b ensures Before(a, b) || Before(b, a) {
      LexTotal(a.did, b.did);
    }
    forall a | a in rows ensures !Before(a, a) {
      LexTotal(a.did, a.did);
    }
    forall a, b, c | Before(a, b) && Before(b, c) ensures Before(a, c) {
      if a.publishedAt == b.publishedAt == c.publishedAt {
        LexTransitive(a.did, b.did, c.did);
      }
    }
  }

  lemma {:induction false} FilterOnePerDid(p: AgentRecord -> bool, rows: seq<AgentRecord>)
    requires OnePerDid(rows)
    ensures OnePerDid(Filter(p, rows))
  {
    if rows != [] {
      FilterOnePerDid(p, rows[1..]);
      var rest := Filter(p, rows[1..]);
      forall j | 0 <= j < |rest| ensures rest[j].did != rows[0].did {
        assert rest[j] in rest;
        var k :| 0 <= k < |rows[1..]| && rows[1..][k] == rest[j];
        assert rows[k + 1] == rest[j];
      }
    }
  }

  /** The rows that pass are listed once each, newest first. */
  lemma MatchingIs(lower: string -> string, rows: seq<AgentRecord>, query: Query)
    requires OnePerDid(rows)
    ensures var m := Matching(lower, rows, query);
            Sorted(Before, m) && NoDup(m) && OrderOn(Before, m)
  {
    var kept := Filter(row => Passes(lower, query, row), rows);
    FilterOnePerDid(row => Passes(lower, query, row), rows);
    RowsOrdered(kept);
    SortSorts(Before, kept);
    SortedNoDup(Before, Matching(lower, rows, query));
  }

  // ---- Keyset pages -----------------------------------------------------------

  function CursorOf(row: PublicRow): Cursor {
    Cursor(row.publishedAt, row.did)
  }

  /** What is asked after the row `last` has been seen. */
  function Following(query: Query, last: PublicRow): Query {
    query.(after := Some(CursorOf(last)))
  }

  lemma PassesAfter(lower: string -> string, query: Query, last: AgentRecord, row: AgentRecord)
    requires Passes(lower, query, last)
    ensures Passes(lower, Following(query, Shown(last, query.now)), row)
            <==> Passes(lower, query, row) && Before(last, row)
  {
    LexTotal(last.did, row.did);
    if query.after.Some? && LexLess(query.after.value.did, last.did) && LexLess(last.did, row.did) {
      LexTransitive(query.after.value.did, last.did, row.did);
    }
  }

  /** Asking for what follows row k is dropping the first k + 1 rows. */
  lemma FollowingDrops(lower: string -> string, rows: seq<AgentRecord>, query: Query, k: nat)
    requires OnePerDid(rows) && k < |Matching(lower, rows, query)|
    ensures var m := Matching(lower, rows, query);
            Matching(lower, rows, Following(query, Shown(m[k], query.now))) == m[k + 1..]
  {
    var m := Matching(lower, rows, query);
    MatchingIs(lower, rows, query);
    assert m[k] in m;
    var next := Following(query, Shown(m[k], query.now));
    var f := Matching(lower, rows, next);
    MatchingIs(lower, rows, next);
    forall row ensures row in f <==> row in m[k + 1..] {
      PassesAfter(lower, query, m[k], row);
      TailOfSorted(m, k, row);
    }
    SortedUnique(Before, f, m[k + 1..]);
  }

  lemma TailOfSorted(m: seq<AgentRecord>, k: nat, row: AgentRecord)
    requires Sorted(Before, m) && OrderOn(Before, m) && k < |m|
    ensures row in m[k + 1..] <==> row in m && Before(m[k], row)
  {
  }

  lemma SameFilter(lower: string -> string, rows: seq<AgentRecord>, query: Query, limit: nat)
    requires OnePerDid(rows)
    ensures Matching(lower, rows, query.(limit := limit)) == Matching(lower, rows, query)
  {
    MatchingIs(lower, rows, query);
    MatchingIs(lower, rows, query.(limit := limit));
    SortedUnique(Before, Matching(lower, rows, query), Matching(lower, rows, query.(limit := limit)));
  }

  /** Everything that matches, as it is shown. */
  function Whole(lower: string -> string, rows: seq<AgentRecord>, query: Query): seq<PublicRow> {
    ShownAll(Matching(lower, rows, query), query.now)
  }

  function Ask(lower: string -> string, rows: seq<AgentRecord>): (Query, nat) -> seq<PublicRow> {
    (query: Query, n: nat) => Listing(lower, rows, query.(limit := n))
  }

  function WholeOf(lower: string -> string, rows: seq<AgentRecord>): Query -> seq<PublicRow> {
    query => Whole(lower, rows, query)
  }

  lemma ListingIs(lower: string -> string, rows: seq<AgentRecord>, query: Query, limit: nat)
    requires OnePerDid(rows)
    ensures Listing(lower, rows, query.(limit := limit)) == Paging.Take(Whole(lower, rows, query), limit)
  {
    SameFilter(lower, rows, query, limit);
  }

  lemma WholeAfter(lower: string -> string, rows: seq<AgentRecord>, query: Query, k: nat)
    requires OnePerDid(rows) && k < |Whole(lower, rows, query)|
    ensures Whole(lower, rows, Following(query, Whole(lower, rows, query)[k])) == Whole(lower, rows, query)[k + 1..]
  {
    FollowingDrops(lower, rows, query, k);
  }

  lemma ListingIsPageable(lower: string -> string, rows: seq<AgentRecord>)
    requires OnePerDid(rows)
    ensures Paging.Pageable(Ask(lower, rows), Following, WholeOf(lower, rows))
  {
    forall query, n ensures Ask(lower, rows)(query, n) == Paging.Take(WholeOf(lower, rows)(query), n) {
      ListingIs(lower, rows, query, n);
    }
    forall query, k: int | 0 <= k < |WholeOf(lower, rows)(query)|
      ensures WholeOf(lower, rows)(Following(query, WholeOf(lower, rows)(query)[k]))
              == WholeOf(lower, rows)(query)[k + 1..]
    {
      WholeAfter(lower, rows, query, k);
    }
  }

  function Pages(lower: string -> string, rows: seq<AgentRecord>, query: Query): seq<PublicRow>
    requires OnePerDid(rows) && query.limit >= 1
  {
    ListingIsPageable(lower, rows);
    Paging.Pages(Ask(lower, rows), Following, WholeOf(lower, rows), query.limit, query)
  }

  function Walk(lower: string -> string, rows: seq<AgentRecord>, query: Query): seq<PublicRow>
    requires OnePerDid(rows) && query.limit >= 1
  {
    ListingIsPageable(lower, rows);
    Paging.Walk(Ask(lower, rows), Following, WholeOf(lower, rows), query.limit, query)
  }

  lemma ShownOnce(lower: string -> string, rows: seq<AgentRecord>, query: Query)
    requires OnePerDid(rows)
    ensures NoDup(Whole(lower, rows, query))
  {
    var m := Matching(lower, rows, query);
    MatchingIs(lower, rows, query);
    forall i, j | 0 <= i < j < |m| ensures Shown(m[i], query.now) != Shown(m[j], query.now) {
      assert Before(m[i], m[j]);
      LexTotal(m[i].did, m[i].did);
    }
  }

  ghost predicate Matches(lower: string -> string, rows: seq<AgentRecord>, query: Query, shown: PublicRow) {
    exists row :: row in rows && Passes(lower, query, row) && shown == Shown(row, query.now)
  }

  lemma ShownExactly(lower: string -> string, rows: seq<AgentRecord>, query: Query)
    ensures forall shown :: shown in Whole(lower, rows, query) <==> Matches(lower, rows, query, shown)
  {
  }

  lemma PagesAreAll(lower: string -> string, rows: seq<AgentRecord>, query: Query)
    requires OnePerDid(rows) && query.limit >= 1
    ensures Pages(lower, rows, query) == Walk(lower, rows, query) == Whole(lower, rows, query)
  {
    ListingIsPageable(lower, rows);
    Paging.PagesAreWhole(Ask(lower, rows), Following, WholeOf(lower, rows), query.limit, query);
    Paging.WalkIsWhole(Ask(lower, rows), Following, WholeOf(lower, rows), query.limit, query);
  }

  /** Following the pages shows every matching agent once, newest first, whatever the
      page size, and no agent that is private or was never published. */
  lemma PagingRefinesListing(lower: string -> string, rows: seq<AgentRecord>, query: Query, whole: nat)
    requires OnePerDid(rows) && query.limit >= 1 && whole >= |rows|
    ensures Pages(lower, rows, query) == Listing(lower, rows, query.(limit := whole))
    ensures Walk(lower, rows, query) == Listing(lower, rows, query.(limit := whole))
    ensures NoDup(Pages(lower, rows, query))
    ensures forall shown :: shown in Pages(lower, rows, query) <==> Matches(lower, rows, query, shown)
  {
    PagesAreAll(lower, rows, query);
    ListingIs(lower, rows, query, whole);
    ShownOnce(lower, rows, query);
    ShownExactly(lower, rows, query);
  }

  /** The row as the public sees it. */
  predicate SeenAs(row: AgentRecord, shown: PublicRow, now: int) {
    && shown.did == row.did && shown.name == row.name && row.publishedAt == Some(shown.publishedAt)
    && (shown.active <==>
          && row.revokedAt.None? && row.credentialVcId.Some?
          && (row.credentialExpiresAt.Some? ==> now < row.credentialExpiresAt.value))
  }

  predicate FoundAt(part: string, whole: string, i: int) {
    0 <= i <= |whole| - |part| && whole[i..i + |part|] == part
  }

  ghost predicate Within(part: string, whole: string) {
    exists i :: FoundAt(part, whole, i)
  }

  lemma WithinIs(part: string, whole: string)
    ensures Within(part, whole) <==> Includes(whole, part)
  {
    if i :| FoundAt(part, whole, i) {
      assert whole[i..][..|part|] == part;
      assert part <= whole[i..];
    }
    if i :| 0 <= i <= |whole| && part <= whole[i..] {
      assert whole[i..][..|part|] == whole[i..i + |part|];
      assert FoundAt(part, whole, i);
    }
  }

  /** Public, of the status asked for, found by name or DID, and beyond the cursor. */
  ghost predicate AskedFor(lower: string -> string, row: AgentRecord, shown: PublicRow, query: Query) {
    && row.isPublic
    && (query.status.OnlyActive? ==> shown.active) && (query.status.OnlyRevoked? ==> !shown.active)
    && (query.q.Some? ==>
          || row.did == query.q.value
          || (row.name.Some? && Within(lower(query.q.value), lower(row.name.value))))
    && (query.after.Some? ==>
          var at, last := shown.publishedAt, query.after.value;
          at < last.publishedAt || (at == last.publishedAt && LexLess(last.did, shown.did)))
  }

  predicate NewestFirst(shown: seq<PublicRow>) {
    forall i, j :: 0 <= i < j < |shown| ==>
      || shown[i].publishedAt > shown[j].publishedAt
      || (shown[i].publishedAt == shown[j].publishedAt && LexLess(shown[i].did, shown[j].did))
  }

  lemma PassesMeans(lower: string -> string, row: AgentRecord, query: Query)
    ensures Passes(lower, query, row) <==>
            row.publishedAt.Some? && AskedFor(lower, row, Shown(row, query.now), query)
    ensures row.publishedAt.Some? ==> SeenAs(row, Shown(row, query.now), query.now)
  {
    if query.after.Some? {
      LexTotal(row.did, query.after.value.did);
    }
    if query.q.Some? && row.name.Some? {
      WithinIs(lower(query.q.value), lower(row.name.value));
    }
  }

  /** What a listing is: at most `limit` rows, newest first; with room for all of them, just
      the rows asked for, each as it is seen. */
  lemma ListingMeans(lower: string -> string, rows: seq<AgentRecord>, query: Query)
    requires OnePerDid(rows)
    ensures var r := Listing(lower, rows, query);
            && |r| <= query.limit && NewestFirst(r)
            && (forall shown :: shown in r ==>
                  exists row :: row in rows && SeenAs(row, shown, query.now) && AskedFor(lower, row, shown, query))
            && (|r| < query.limit ==> forall row, shown ::
                  row in rows && SeenAs(row, shown, query.now) && AskedFor(lower, row, shown, query) ==> shown in r)
  {
    var m := Matching(lower, rows, query);
    MatchingIs(lower, rows, query);
    forall row ensures Passes(lower, query, row) <==>
                         row.publishedAt.Some? && AskedFor(lower, row, Shown(row, query.now), query)
      ensures row.publishedAt.Some? ==> SeenAs(row, Shown(row, query.now), query.now)
    {
      PassesMeans(lower, row, query);
    }
    forall row, shown | row in rows && SeenAs(row, shown, query.now) && AskedFor(lower, row, shown, query)
      ensures row in m && shown == Shown(row, query.now)
    {
    }
  }

  // ---- The SQLite predicate --------------------------------------------------

  /** SQL's three truth values: an unknown one is None. */
  type Truth = Option<bool>

  function And3(a: Truth, b: Truth): Truth {
    if a == Some(false) || b == Some(false) then Some(false)
    else if a == Some(true) && b == Some(true) then Some(true) else None
  }

  function Or3(a: Truth, b: Truth): Truth {
    if a == Some(true) || b == Some(true) then Some(true)
    else if a == Some(false) && b == Some(false) then Some(false) else None
  }

  function Not3(a: Truth): Truth {
    match a case None => None case Some(b) => Some(!b)
  }

  /** A comparison with a null on the left is unknown. */
  function Compare3<T>(a: Option<T>, holds: T -> bool): Truth {
    match a case None => None case Some(v) => Some(holds(v))
  }

  function SqlActive(row: AgentRecord, now: int): Truth {
    And3(Some(row.revokedAt.None?),
         And3(Some(row.credentialVcId.Some?),
              Or3(Some(row.credentialExpiresAt.None?), Compare3(row.credentialExpiresAt, at => at > now))))
  }

  ghost function SqlSearch(row: AgentRecord, q: string): Truth {
    var pattern := "%" + EscapeLikePattern(q) + "%";
    var like := match row.name case None => None case Some(name) => Some(Like(Lower, name, pattern));
    Or3(like, Some(row.did == q))
  }

  function SqlAfter(row: AgentRecord, after: Cursor): Truth {
    Or3(Compare3(row.publishedAt, at => at < after.publishedAt),
        And3(Compare3(row.publishedAt, at => at == after.publishedAt), Some(LexLess(after.did, row.did))))
  }

  ghost function SqlWhere(row: AgentRecord, query: Query): Truth {
    And3(Some(row.isPublic),
    And3(Some(row.publishedAt.Some?),
    And3(match query.status
           case OnlyActive => SqlActive(row, query.now)
           case OnlyRevoked => Not3(SqlActive(row, query.now))
           case AnyStatus => Some(true),
    And3(if query.q.Some? then SqlSearch(row, query.q.value) else Some(true),
         if query.after.Some? then SqlAfter(row, query.after.value) else Some(true)))))
  }

  /** Nothing searched for or in is changed by lower-casing beyond ASCII. */
  predicate PlainSearch(lower: string -> string, row: AgentRecord, query: Query) {
    query.q.Some? && row.name.Some? ==> Plain(lower, row.name.value) && Plain(lower, query.q.value)
  }

  /** The WHERE clause of the SQLite driver selects the rows the in-memory filter
      keeps, null names and null expiries included, as far as the two searches agree,
      and they do on plain names and terms; the status is never unknown. */
  lemma SqlWhereIsPasses(lower: string -> string, row: AgentRecord, query: Query)
    ensures query.q.Some? && row.name.Some? && SearchesAgree(lower, row.name.value, query.q.value) ==>
              (SqlWhere(row, query) == Some(true) <==> Passes(lower, query, row))
    ensures PlainSearch(lower, row, query) ==> (SqlWhere(row, query) == Some(true) <==> Passes(lower, query, row))
    ensures SqlActive(row, query.now) == Some(IsActive(row, query.now))
  {
    if query.q.Some? && row.name.Some? && PlainSearch(lower, row, query) {
      PlainSearchesAgree(lower, row.name.value, query.q.value);
    }
    if query.after.Some? {
      LexTotal(row.did, query.after.value.did);
    }
  }

  // ---- The driver ---------------------------------------------------------------

  function Marked(row: AgentRecord, vcId: string, at: int): AgentRecord {
    if row.credentialVcId == Some(vcId) && row.revokedAt.None?
    then row.(revokedAt := Some(at), updatedAt := at)
    else row
  }

  class InMemoryAgentRecords {
    const lower: string -> string
    var rows: map<string, AgentRecord>
    var order: seq<string>

    ghost predicate Valid()
      reads this
    {
      && NoDup(order)
      && (forall did :: did in order <==> did in rows)
      && (forall did :: did in rows ==> rows[did].did == did)
    }

    /** The Map's values in insertion order. */
    function Values(): (s: seq<AgentRecord>)
      requires Valid()
      reads this
      ensures OnePerDid(s) && forall row :: row in s <==> row.did in rows && rows[row.did] == row
    {
      var s := seq(|order|,
                   i requires 0 <= i < |order| && Valid() reads this => assert order[i] in order; rows[order[i]]);
      assert forall i :: 0 <= i < |order| ==> order[i] in order && s[i] == rows[order[i]];
      s
    }

    constructor (lower: string -> string)
      ensures Valid() && rows == map[] && this.lower == lower
    {
      this.lower := lower;
      rows := map[];
      order := [];
    }

    method Create(data: AgentRecord) returns (stored: AgentRecord)
      requires Valid()
      modifies this
      ensures Valid()
      ensures data.did in old(rows) ==> stored == old(rows)[data.did] && rows == old(rows)
      ensures data.did !in old(rows) ==>
                && stored == data.(visibilityChangedAt := data.publishedAt, updatedAt := data.createdAt)
                && rows == old(rows)[data.did := stored]
    {
      if data.did in rows {
        return rows[data.did];
      }
      stored := data.(visibilityChangedAt := data.publishedAt, updatedAt := data.createdAt);
      rows := rows[data.did := stored];
      order := order + [data.did];
    }

    method SetVisibility(did: string, isPublic: bool, at: int) returns (r: Option<AgentRecord>)
      requires Valid()
      modifies this`rows
      ensures Valid()
      ensures did !in old(rows) ==> r.None? && rows == old(rows)
      ensures did in old(rows) ==>
                && r == Some(old(rows)[did].(isPublic := isPublic, visibilityChangedAt := Some(at),
                               publishedAt := if isPublic then Some(at) else None, updatedAt := at))
                && rows == old(rows)[did := r.value]
    {
      if did !in rows {
        return None;
      }
      var row := rows[did].(isPublic := isPublic);
      row := row.(visibilityChangedAt := Some(at));
      row := row.(publishedAt := if isPublic then Some(at) else None);
      row := row.(updatedAt := at);
      rows := rows[did := row];
      r := Some(row);
    }

    method UpdateCredentialState(did: string, vcId: Option<string>, expiresAt: Option<int>,
                                 revokedAt: Option<int>, now: int)
      requires Valid()
      modifies this`rows
      ensures Valid()
      ensures rows == if did !in old(rows) then old(rows) else
                old(rows)[did := old(rows)[did].(credentialVcId := vcId, credentialExpiresAt := expiresAt,
                            revokedAt := revokedAt, updatedAt := now)]
    {
      if did in rows {
        rows := rows[did := rows[did].(credentialVcId := vcId, credentialExpiresAt := expiresAt,
                       revokedAt := revokedAt, updatedAt := now)];
      }
    }

    method MarkRevokedByCredential(vcId: string, at: int)
      requires Valid()
      modifies this`rows
      ensures Valid()
      ensures rows.Keys == old(rows).Keys
      ensures forall did :: did in old(rows) ==>
                var row := old(rows)[did];
                rows[did] == if row.credentialVcId == Some(vcId) && row.revokedAt.None?
                             then row.(revokedAt := Some(at), updatedAt := at) else row
    {
      var i := 0;
      while i < |order|
        invariant 0 <= i <= |order|
        invariant rows.Keys == old(rows).Keys
        invariant forall j :: 0 <= j < i ==> order[j] in rows && rows[order[j]] == Marked(old(rows)[order[j]], vcId, at)
        invariant forall j :: i <= j < |order| ==> order[j] in rows && rows[order[j]] == old(rows)[order[j]]
      {
        var row := rows[order[i]];
        if row.credentialVcId == Some(vcId) && row.revokedAt == None {
          assert forall j :: 0 <= j < |order| && j != i ==> order[j] != order[i];
          rows := rows[order[i] := row.(revokedAt := Some(at), updatedAt := at)];
        }
        i := i + 1;
      }
      forall did | did in rows ensures rows[did] == Marked(old(rows)[did], vcId, at) {
        assert did in order;
      }
    }

    method ListPublic(query: Query) returns (page: seq<PublicRow>)
      requires Valid()
      ensures page == Listing(lower, Values(), query)
      ensures |page| <= query.limit
      ensures forall shown :: shown in page ==>
                shown.did in rows && Passes(lower, query, rows[shown.did]) && shown == Shown(rows[shown.did], query.now)
    {
      var all := Values();
      page := Listing(lower, all, query);
      MatchingIs(lower, all, query);
      forall shown | shown in page
        ensures shown.did in rows && Passes(lower, query, rows[shown.did]) && shown == Shown(rows[shown.did], query.now)
      {
        var i :| 0 <= i < |page| && page[i] == shown;
        var row := Matching(lower, all, query)[i];
        assert row in Matching(lower, all, query) && shown == Shown(row, query.now);
      }
    }
  }
}
