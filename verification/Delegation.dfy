/** Building delegations, the schema-level chain check, and what ties both to the
    chain walk of the verifier. */
module Delegation {
  import opened Common
  import opened Credentials
  import opened Verifier

  datatype DelegateOptions = DelegateOptions(
    to: Did,
    scopes: seq<Scope>,
    expiresIn: int,
    from: Credential,
    status: Option<StatusRef>)

  function BuildDelegationVC(o: DelegateOptions, wallet: Wallet, now: int, id: VcId): Result<Credential, Error> {
    var parent := o.from.body.subject;
    if o.to == wallet.did then Err(SelfDelegationNotAllowed(wallet.did))
    else if parent.privilegeScopes.None? then Err(ScopeEscalationDenied("credential has no privilege scopes"))
    else
      var denied := FirstMissing(ScopesOf(o.from), o.scopes);
      if denied.Some? then Err(ScopeEscalationDenied(denied.value))
      else if DepthOf(o.from) + 1 > MaxDepthOf(o.from) then Err(MaxDelegationDepthExceeded)
      else
        var subject := Subject(o.to, Some(o.scopes), Some(o.to), None, Some(wallet.did), Some(DepthOf(o.from) + 1),
                               Some(MaxDepthOf(o.from)), Some(o.from.body.id), NO_CLAIMS);
        var body := Body(id, [BASE_TYPE, AGENT_TYPE], wallet.did, Some(now), Some(now + o.expiresIn * 1000),
                         o.status, subject, ChainOf(o.from), None, false);
        Ok(Credential(body, Some(wallet.sign(body))))
  }

  // ---- validateChainIntegrity ----------------------------------------------

  function IntegrityLinkFault(parent: Credential, child: Credential, index: int, maxDepth: int): Option<ChainFault> {
    if child.body.subject.delegatedFrom != Some(parent.body.subject.id) then Some(DelegatedFromMismatch)
    else if child.body.subject.parentVcId != Some(parent.body.id) then Some(ParentIdMismatch)
    else if child.body.subject.delegationDepth != Some(index) then Some(DepthNotSequential)
    else if child.body.subject.maxDelegationDepth != Some(maxDepth) then Some(MaxDepthChanged)
    else
      var denied := FirstMissing(ScopesOf(parent), ScopesOf(child));
      if denied.Some? then Some(Escalation(denied.value)) else None
  }

  function IntegrityFrom(chain: seq<Credential>, index: nat, maxDepth: int): Option<ChainFault>
    requires 1 <= index <= |chain|
    decreases |chain| - index
  {
    if index == |chain| then
      if DepthOf(chain[index - 1]) > maxDepth then Some(DepthExceeded) else None
    else
      var fault := IntegrityLinkFault(chain[index - 1], chain[index], index, maxDepth);
      if fault.Some? then fault else IntegrityFrom(chain, index + 1, maxDepth)
  }

  function IntegrityFault(chain: seq<Credential>): Option<ChainFault> {
    if |chain| < 2 then Some(MissingParents)
    else if DepthOf(chain[0]) != 0 then Some(RootDepth)
    else IntegrityFrom(chain, 1, MaxDepthOf(chain[0]))
  }

  /** The walk that looks at the depth budget once, at the leaf. */
  method ValidateChainIntegrity(chain: seq<Credential>) returns (fault: Option<ChainFault>)
    ensures fault == IntegrityFault(chain)
  {
    if |chain| < 2 {
      return Some(MissingParents);
    }
    if DepthOf(chain[0]) != 0 {
      return Some(RootDepth);
    }
    var maxDepth := MaxDepthOf(chain[0]);
    var index := 1;
    while index < |chain|
      invariant 1 <= index <= |chain|
      invariant IntegrityFault(chain) == IntegrityFrom(chain, index, maxDepth)
    {
      fault := IntegrityLinkFault(chain[index - 1], chain[index], index, maxDepth);
      if fault.Some? {
        return;
      }
      index := index + 1;
    }
    return if DepthOf(chain[|chain| - 1]) > maxDepth then Some(DepthExceeded) else None;
  }

  // ---- What both walks mean ------------------------------------------------

  /** Every link is in order between parent and child. */
  ghost predicate Linked(chain: seq<Credential>, from: nat, maxDepth: int)
    requires 1 <= from
  {
    forall i :: from <= i < |chain| ==> IntegrityLinkFault(chain[i - 1], chain[i], i, maxDepth).None?
  }

  /** The links name each other and count the depth, whatever their scopes. */
  ghost predicate Threaded(chain: seq<Credential>, from: nat, maxDepth: int)
    requires 1 <= from
  {
    forall i :: from <= i < |chain| ==> Threads(chain[i - 1], chain[i], i, maxDepth)
  }

  predicate Threads(parent: Credential, child: Credential, index: int, maxDepth: int) {
    && child.body.subject.delegatedFrom == Some(parent.body.subject.id)
    && child.body.subject.parentVcId == Some(parent.body.id)
    && child.body.subject.delegationDepth == Some(index)
    && child.body.subject.maxDelegationDepth == Some(maxDepth)
  }

  /** The verifier's subset check passes at every link. */
  ghost predicate ScopesPass(chain: seq<Credential>, from: nat)
    requires 1 <= from
  {
    forall i :: from <= i < |chain| ==> EscalatedScope(ScopesOf(chain[i - 1]), ScopesOf(chain[i])).None?
  }

  /** At no link is the empty scope the first that the parent lacks. */
  ghost predicate NothingHidden(chain: seq<Credential>) {
    forall i :: 1 <= i < |chain| ==> FirstMissing(ScopesOf(chain[i - 1]), ScopesOf(chain[i])) != Some("")
  }

  /** Each child is issued by the subject of its parent. */
  ghost predicate IssuedDown(chain: seq<Credential>, from: nat)
    requires 1 <= from
  {
    forall i :: from <= i < |chain| ==> chain[i].body.issuer == chain[i - 1].body.subject.id
  }

  ghost predicate ScopesNested(chain: seq<Credential>) {
    forall i, j, s :: 0 <= i < j < |chain| && s in ScopesOf(chain[j]) ==> s in ScopesOf(chain[i])
  }

  lemma {:induction false} IntegrityMeansLinked(chain: seq<Credential>, index: nat, maxDepth: int)
    requires 1 <= index <= |chain|
    ensures IntegrityFrom(chain, index, maxDepth).None? <==>
            Linked(chain, index, maxDepth) && DepthOf(chain[|chain| - 1]) <= maxDepth
    decreases |chain| - index
  {
    if index < |chain| {
      IntegrityMeansLinked(chain, index + 1, maxDepth);
    }
  }

  lemma {:induction false} WalkMeans(chain: seq<Credential>, index: nat, maxDepth: int)
    requires 1 <= index <= |chain|
    ensures FirstLinkFault(chain, index, maxDepth).None? <==>
            && Threaded(chain, index, maxDepth)
            && IssuedDown(chain, index)
            && ScopesPass(chain, index)
            && (index < |chain| ==> |chain| - 1 <= maxDepth)
    decreases |chain| - index
  {
    if index < |chain| {
      WalkMeans(chain, index + 1, maxDepth);
      OneLink(chain[index - 1], chain[index], index, maxDepth);
    }
  }

  lemma OneLink(parent: Credential, child: Credential, index: int, maxDepth: int)
    ensures LinkFault(parent, child, index, maxDepth).None? <==>
            && Threads(parent, child, index, maxDepth)
            && child.body.issuer == parent.body.subject.id
            && EscalatedScope(ScopesOf(parent), ScopesOf(child)).None?
            && index <= maxDepth
    ensures IntegrityLinkFault(parent, child, index, maxDepth).None? <==>
            Threads(parent, child, index, maxDepth) && FirstMissing(ScopesOf(parent), ScopesOf(child)).None?
  {
  }

  /** A threaded chain that the verifier's check lets through shrinks at every link
      just when nothing is hidden. */
  lemma LinkedIffNothingHidden(chain: seq<Credential>, maxDepth: int)
    requires Threaded(chain, 1, maxDepth) && ScopesPass(chain, 1)
    ensures Linked(chain, 1, maxDepth) <==> NothingHidden(chain)
  {
    forall i | 1 <= i < |chain|
      ensures IntegrityLinkFault(chain[i - 1], chain[i], i, maxDepth).None? <==>
              FirstMissing(ScopesOf(chain[i - 1]), ScopesOf(chain[i])) != Some("")
    {
      OneLink(chain[i - 1], chain[i], i, maxDepth);
      assert EscalatedScope(ScopesOf(chain[i - 1]), ScopesOf(chain[i])).None?;
    }
  }

  lemma LinkedPasses(chain: seq<Credential>, maxDepth: int)
    requires Linked(chain, 1, maxDepth)
    ensures Threaded(chain, 1, maxDepth) && ScopesPass(chain, 1)
  {
    forall i | 1 <= i < |chain|
      ensures Threads(chain[i - 1], chain[i], i, maxDepth)
      ensures EscalatedScope(ScopesOf(chain[i - 1]), ScopesOf(chain[i])).None?
    {
      assert IntegrityLinkFault(chain[i - 1], chain[i], i, maxDepth).None?;
      OneLink(chain[i - 1], chain[i], i, maxDepth);
    }
  }

  lemma NestedHidesNothing(chain: seq<Credential>)
    requires ScopesNested(chain)
    ensures NothingHidden(chain)
  {
    forall i | 1 <= i < |chain| ensures FirstMissing(ScopesOf(chain[i - 1]), ScopesOf(chain[i])).None? {
      assert forall x :: x in ScopesOf(chain[i]) ==> x in ScopesOf(chain[i - 1]);
    }
  }

  /** Passing link by link, scopes only shrink along the whole chain. */
  lemma {:induction false} LinkedNests(chain: seq<Credential>, maxDepth: int, i: nat, j: nat)
    requires Linked(chain, 1, maxDepth) && i < j < |chain|
    ensures forall s :: s in ScopesOf(chain[j]) ==> s in ScopesOf(chain[i])
    decreases j - i
  {
    assert IntegrityLinkFault(chain[j - 1], chain[j], j, maxDepth).None?;
    if i < j - 1 {
      LinkedNests(chain, maxDepth, i, j - 1);
    }
  }

  lemma LinkedFacts(chain: seq<Credential>, maxDepth: int)
    requires |chain| >= 2 && Linked(chain, 1, maxDepth)
    ensures ScopesNested(chain) && DepthOf(chain[|chain| - 1]) == |chain| - 1
  {
    var last := |chain| - 1;
    assert IntegrityLinkFault(chain[last - 1], chain[last], last, maxDepth).None?;
    forall i, j | 0 <= i < j < |chain|
      ensures forall s :: s in ScopesOf(chain[j]) ==> s in ScopesOf(chain[i])
    {
      LinkedNests(chain, maxDepth, i, j);
    }
  }

  lemma {:induction false} CredentialFaultFree(chain: seq<Credential>, opts: VerifyOptions, w: World)
    ensures CredentialFault(chain, opts, w).None? <==>
            forall c :: c in chain ==> VerifyCredential(c, opts, w).Ok? && c.body.subject.privilegeScopes.Some?
  {
    if chain != [] {
      assert chain == [chain[0]] + chain[1..];
      CredentialFaultFree(chain[1..], opts, w);
    }
  }

  ghost predicate AllVerify(chain: seq<Credential>, opts: VerifyOptions, w: World) {
    forall c :: c in chain ==> VerifyCredential(c, opts, w).Ok? && c.body.subject.privilegeScopes.Some?
  }

  /** Which chains the verifier's walk accepts. */
  lemma ChainAcceptedIff(leaf: Credential, opts: VerifyOptions, w: World)
    requires Delegated(leaf)
    ensures var chain := ChainOf(leaf);
            ChainResult(leaf, opts, w).Ok? <==>
              && |chain| >= 2 && AllVerify(chain, opts, w)
              && !SelfSigned(chain[0]) && DepthOf(chain[0]) == 0 && |chain| - 1 <= MaxDepthOf(chain[0])
              && Threaded(chain, 1, MaxDepthOf(chain[0])) && IssuedDown(chain, 1) && ScopesPass(chain, 1)
  {
    var chain := ChainOf(leaf);
    if |chain| >= 2 {
      CredentialFaultFree(chain, opts, w);
      WalkMeans(chain, 1, MaxDepthOf(chain[0]));
    }
  }

  /** The walk against the schema's check, for every chain: the verifier accepts it
      with no escalation hidden behind a missing empty scope exactly when the schema
      accepts it, all its credentials stand, each is issued by its parent's subject
      and the root is not self-issued. So looking at the depth of every link and of
      the leaf alone decide the same; and of the accepted chains just those with
      nothing hidden have their scopes nested. */
  lemma WalkAgainstSchema(leaf: Credential, opts: VerifyOptions, w: World)
    requires Delegated(leaf)
    ensures var chain := ChainOf(leaf);
            ChainResult(leaf, opts, w).Ok? && NothingHidden(chain) <==>
              IntegrityFault(chain).None? && AllVerify(chain, opts, w) && IssuedDown(chain, 1) && !SelfSigned(chain[0])
    ensures ChainResult(leaf, opts, w).Ok? ==> (ScopesNested(ChainOf(leaf)) <==> NothingHidden(ChainOf(leaf)))
  {
    var chain := ChainOf(leaf);
    ChainAcceptedIff(leaf, opts, w);
    if |chain| >= 2 {
      var maxDepth := MaxDepthOf(chain[0]);
      IntegrityMeansLinked(chain, 1, maxDepth);
      if Linked(chain, 1, maxDepth) {
        LinkedPasses(chain, maxDepth);
        LinkedFacts(chain, maxDepth);
        NestedHidesNothing(chain);
      }
      if ChainResult(leaf, opts, w).Ok? {
        LinkedIffNothingHidden(chain, maxDepth);
        assert Threads(chain[|chain| - 2], chain[|chain| - 1], |chain| - 1, maxDepth);
        if ScopesNested(chain) {
          NestedHidesNothing(chain);
        }
      }
    }
  }

  /** The verifier's subset check is exact for every parent just when the child
      names no empty scope: the first missing scope is judged by its truthiness. */
  lemma SubsetCheckExactIff(child: seq<Scope>)
    ensures (forall parent :: EscalatedScope(parent, child).None? <==> forall s :: s in child ==> s in parent)
       <==> "" !in child
  {
    if "" in child {
      var parent := Filter(s => s != "", child);
      OnlyMissing(parent, child);
      assert EscalatedScope(parent, child).None?;
      assert "" in child && "" !in parent;
    }
  }

  lemma OnlyMissing(parent: seq<Scope>, child: seq<Scope>)
    requires "" in child && "" !in parent
    requires forall s :: s in child && s != "" ==> s in parent
    ensures FirstMissing(parent, child) == Some("")
  {
  }

  // ---- Built chains --------------------------------------------------------

  /** What every credential issued or built by the platform looks like: its chain
      runs from a depth-0 root that did not issue itself, link by link. */
  ghost predicate WellLinked(leaf: Credential) {
    var chain := ChainOf(leaf);
    && !SelfSigned(chain[0]) && !Delegated(chain[0]) && DepthOf(chain[0]) == 0
    && (forall c :: c in chain ==> c.body.subject.privilegeScopes.Some?)
    && (Delegated(leaf) <==> |chain| > 1)
    && Linked(chain, 1, MaxDepthOf(chain[0]))
    && IssuedDown(chain, 1)
    && (forall i :: 1 <= i < |chain| ==> !SelfSigned(chain[i]))
    && DepthOf(leaf) == |chain| - 1
    && MaxDepthOf(leaf) == MaxDepthOf(chain[0])
    && (|chain| > 1 ==> |chain| - 1 <= MaxDepthOf(leaf))
  }

  lemma BuilderKeepsLinked(o: DelegateOptions, wallet: Wallet, now: int, id: VcId)
    requires WellLinked(o.from) && wallet.did == o.from.body.subject.id && wallet.did != ""
    requires BuildDelegationVC(o, wallet, now, id).Ok?
    ensures var vc := BuildDelegationVC(o, wallet, now, id).value;
            WellLinked(vc) && ChainOf(vc) == ChainOf(o.from) + [vc]
  {
  }

  lemma {:induction false} LinkedWalk(chain: seq<Credential>, index: nat, maxDepth: int)
    requires 1 <= index <= |chain|
    requires Linked(chain, index, maxDepth) && IssuedDown(chain, index) && |chain| - 1 <= maxDepth
    ensures FirstLinkFault(chain, index, maxDepth).None?
    decreases |chain| - index
  {
    if index < |chain| {
      LinkedWalk(chain, index + 1, maxDepth);
      assert IntegrityLinkFault(chain[index - 1], chain[index], index, maxDepth).None?;
    }
  }

  lemma DelegatedAccepted(leaf: Credential, opts: VerifyOptions, w: World)
    requires Delegated(leaf) && |ChainOf(leaf)| >= 2 && CredentialFault(ChainOf(leaf), opts, w).None?
    requires StructureFault(ChainOf(leaf)).None?
    ensures ChainResult(leaf, opts, w) == Ok(Links(ChainOf(leaf)))
  {
  }

  lemma UndelegatedAccepted(leaf: Credential, opts: VerifyOptions, w: World)
    requires !Delegated(leaf) && leaf.body.chain == []
    ensures ChainResult(leaf, opts, w) == Ok(Links(ChainOf(leaf)))
  {
    assert ChainOf(leaf) == [leaf];
    assert Links([leaf]) == [ToLink(leaf)];
  }

  lemma WellLinkedStructure(leaf: Credential)
    requires WellLinked(leaf) && Delegated(leaf)
    ensures |ChainOf(leaf)| >= 2 && StructureFault(ChainOf(leaf)).None?
  {
    LinkedWalk(ChainOf(leaf), 1, MaxDepthOf(ChainOf(leaf)[0]));
  }

  /** A well-linked credential passes the walk while every link stands. */
  lemma WellLinkedAccepted(leaf: Credential, opts: VerifyOptions, w: World)
    requires WellLinked(leaf)
    requires forall c :: c in ChainOf(leaf) ==> VerifyCredential(c, opts, w).Ok?
    ensures ChainResult(leaf, opts, w) == Ok(Links(ChainOf(leaf)))
  {
    CredentialFaultFree(ChainOf(leaf), opts, w);
    if Delegated(leaf) {
      WellLinkedStructure(leaf);
      DelegatedAccepted(leaf, opts, w);
    } else {
      UndelegatedAccepted(leaf, opts, w);
    }
  }

  /** The wallet's DID resolves to the document of its own key. */
  ghost predicate Genuine(wallet: Wallet, w: World) {
    w.resolvable(wallet.did) && forall b :: w.verifies(wallet.did, b, wallet.sign(b))
  }

  /** Inside its validity window, and not revoked. */
  predicate Current(vc: Credential, w: World) {
    ValidityFault(vc, w.now).None? && NotRevoked(vc, w)
  }

  datatype Hop = Hop(
    wallet: Wallet,
    to: Did,
    scopes: seq<Scope>,
    expiresIn: int,
    status: Option<StatusRef>,
    now: int,
    id: VcId)

  /** A run of delegations, each extending the credential built before it. */
  function BuildChain(from: Credential, hops: seq<Hop>): Result<Credential, Error>
    decreases hops
  {
    if hops == [] then Ok(from) else
    var h := hops[0];
    match BuildDelegationVC(DelegateOptions(h.to, h.scopes, h.expiresIn, from, h.status), h.wallet, h.now, h.id)
    case Err(e) => Err(e)
    case Ok(vc) => BuildChain(vc, hops[1..])
  }

  /** Each hop is signed by the subject of the credential it extends. */
  ghost predicate HopsSigned(holder: Did, hops: seq<Hop>, w: World)
    decreases hops
  {
    hops != [] ==>
      && hops[0].wallet.did == holder && holder != ""
      && Genuine(hops[0].wallet, w)
      && HopsSigned(hops[0].to, hops[1..], w)
  }

  lemma {:induction false} BuiltChainLinked(from: Credential, hops: seq<Hop>, opts: VerifyOptions, w: World)
    requires WellLinked(from)
    requires HopsSigned(from.body.subject.id, hops, w)
    requires forall c :: c in ChainOf(from) ==> SignatureFault(c, w).None?
    requires BuildChain(from, hops).Ok?
    ensures var leaf := BuildChain(from, hops).value;
            && WellLinked(leaf)
            && |ChainOf(leaf)| == |ChainOf(from)| + |hops|
            && ChainOf(leaf)[..|ChainOf(from)|] == ChainOf(from)
            && (forall c :: c in ChainOf(leaf) ==> SignatureFault(c, w).None?)
    decreases hops
  {
    if hops != [] {
      var h := hops[0];
      var o := DelegateOptions(h.to, h.scopes, h.expiresIn, from, h.status);
      BuilderKeepsLinked(o, h.wallet, h.now, h.id);
      var vc := BuildDelegationVC(o, h.wallet, h.now, h.id).value;
      BuiltChainLinked(vc, hops[1..], opts, w);
      assert ChainOf(from) == ChainOf(vc)[..|ChainOf(from)|];
    }
  }

  lemma CurrentVerifies(chain: seq<Credential>, opts: VerifyOptions, w: World)
    requires forall c :: c in chain ==> SignatureFault(c, w).None? && Current(c, w) && !SelfSigned(c)
    ensures forall c :: c in chain ==> VerifyCredential(c, opts, w) == Ok(false)
  {
  }

  lemma WellLinkedNotSelfSigned(leaf: Credential)
    requires WellLinked(leaf)
    ensures forall c :: c in ChainOf(leaf) ==> !SelfSigned(c)
  {
  }

  /** From a depth-0 root not issued by its own subject, any run of delegations
      gives a leaf that the verifier accepts while all links are current. */
  lemma BuiltChainVerifies(root: Credential, hops: seq<Hop>, opts: VerifyOptions, w: World)
    requires root.body.chain == [] && !Delegated(root) && DepthOf(root) == 0 && !SelfSigned(root)
    requires root.body.subject.privilegeScopes.Some? && SignatureFault(root, w).None?
    requires HopsSigned(root.body.subject.id, hops, w)
    requires BuildChain(root, hops).Ok?
    requires forall c :: c in ChainOf(BuildChain(root, hops).value) ==> Current(c, w)
    ensures var leaf := BuildChain(root, hops).value;
            && ChainResult(leaf, opts, w) == Ok(Links(ChainOf(leaf)))
            && ChainOf(leaf)[0] == root
            && DepthOf(leaf) == |hops| == |ChainOf(leaf)| - 1
  {
    assert ChainOf(root) == [root];
    BuiltChainLinked(root, hops, opts, w);
    var leaf := BuildChain(root, hops).value;
    WellLinkedNotSelfSigned(leaf);
    CurrentVerifies(ChainOf(leaf), opts, w);
    WellLinkedAccepted(leaf, opts, w);
    assert ChainOf(leaf)[..1][0] == root;
  }

  /** No hop delegates to its own signer or past its parent's scopes. */
  ghost predicate HopsAllowed(scopes: seq<Scope>, hops: seq<Hop>)
    decreases hops
  {
    hops != [] ==>
      && hops[0].to != hops[0].wallet.did
      && (forall s :: s in hops[0].scopes ==> s in scopes)
      && HopsAllowed(hops[0].scopes, hops[1..])
  }

  /** The budget is exact: allowed hops all succeed while they fit into what is
      left of the root's maximum depth, and the first one beyond it fails. */
  lemma {:induction false} BudgetIsExact(from: Credential, hops: seq<Hop>)
    requires from.body.subject.privilegeScopes.Some?
    ensures BuildChain(from, hops).Ok? <==>
            HopsAllowed(ScopesOf(from), hops) && (hops == [] || DepthOf(from) + |hops| <= MaxDepthOf(from))
    decreases hops
  {
    if hops != [] {
      var h := hops[0];
      var o := DelegateOptions(h.to, h.scopes, h.expiresIn, from, h.status);
      var built := BuildDelegationVC(o, h.wallet, h.now, h.id);
      if built.Ok? {
        BudgetIsExact(built.value, hops[1..]);
      }
    }
  }

  // ---- Choosing the credential to delegate from ----------------------------

  predicate Eligible(vc: Credential, scopes: seq<Scope>) {
    (forall i :: 0 <= i < |scopes| ==> scopes[i] in ScopesOf(vc)) && DepthOf(vc) + 1 <= MaxDepthOf(vc)
  }

  function ResolveDelegationSource(candidates: seq<Credential>, scopes: seq<Scope>): Result<Option<Credential>, Error> {
    var eligible := Filter(vc => Eligible(vc, scopes), candidates);
    if |eligible| == 0 then Ok(None)
    else if |eligible| == 1 then Ok(Some(eligible[0]))
    else Err(MultipleActiveVc)
  }

  /** A candidate is eligible exactly when the builder would take it: the source
      picked never trips the scope or depth check, and none is picked only when
      every candidate would trip one. */
  lemma SourceMatchesBuilder(candidates: seq<Credential>, o: DelegateOptions, wallet: Wallet, now: int, id: VcId)
    requires o.to != wallet.did
    requires forall vc :: vc in candidates ==> vc.body.subject.privilegeScopes.Some?
    ensures var r := ResolveDelegationSource(candidates, o.scopes);
            && (r.Ok? && r.value.Some? ==>
                  r.value.value in candidates && BuildDelegationVC(o.(from := r.value.value), wallet, now, id).Ok?)
            && (r == Ok(None) ==>
                  forall vc :: vc in candidates ==> BuildDelegationVC(o.(from := vc), wallet, now, id).Err?)
            && (r.Err? ==> exists i, j :: (
                  && 0 <= i < j < |candidates|
                  && BuildDelegationVC(o.(from := candidates[i]), wallet, now, id).Ok?
                  && BuildDelegationVC(o.(from := candidates[j]), wallet, now, id).Ok?))
  {
    forall vc | vc in candidates
      ensures Eligible(vc, o.scopes) <==> BuildDelegationVC(o.(from := vc), wallet, now, id).Ok?
    {
    }
    var eligible := Filter(vc => Eligible(vc, o.scopes), candidates);
    if |eligible| == 1 {
      assert eligible[0] in eligible;
    } else if |eligible| > 1 {
      var i, j := TwoSources(vc => Eligible(vc, o.scopes), candidates);
      assert candidates[i] in candidates && candidates[j] in candidates;
    } else {
      assert forall vc :: vc in candidates && Eligible(vc, o.scopes) ==> vc in eligible;
    }
  }

  lemma {:induction false} TwoSources(p: Credential -> bool, s: seq<Credential>) returns (i: nat, j: nat)
    requires |Filter(p, s)| > 1
    ensures i < j < |s| && p(s[i]) && p(s[j])
  {
    if p(s[0]) {
      var rest := Filter(p, s[1..]);
      assert rest[0] in rest;
      var k :| 0 <= k < |s[1..]| && s[1..][k] == rest[0];
      i, j := 0, k + 1;
    } else {
      i, j := TwoSources(p, s[1..]);
      i, j := i + 1, j + 1;
    }
  }
}
