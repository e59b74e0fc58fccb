/** Mandates and their scopes (ml-core: mandate). */
module Scopes {
  import opened Prelude
  import opened Domain
  import opened Patterns

  const U32_MAX: int := 0xffff_ffff

  type Count32 = n: int | 0 <= n <= U32_MAX witness 0

  datatype Velocity = Velocity(maxCount: Count32, windowSecs: Time)

  datatype Scope = Scope(
    merchants: seq<MerchantPattern>,
    categories: Option<seq<Category>>,
    currency: Currency,
    maxPerTxn: Option<Money>,
    maxTotal: Option<Money>,
    validFrom: Time,
    validUntil: Time,
    velocity: Option<Velocity>,
    minAttestation: AttestationLevel)

  datatype MandateBody = MandateBody(
    id: MandateId,
    principal: PrincipalId,
    agent: AgentId,
    scope: Scope,
    issuedAt: Time,
    parent: Option<MandateId>)

  datatype Mandate = Mandate(body: MandateBody, signer: Key, signature: Key)

  datatype ScopeFault =
    | WindowReversed
    | CapCurrencyDiffers
    | CapNegative
    | VelocityEmpty

  datatype DenyReason =
    | MandateSignatureInvalid
    | MandateSignerUntrusted
    | MandateNotYetValid
    | MandateExpired
    | MandateRevoked
    | AttestationInsufficient
    | ScopeMerchantMismatch
    | ScopeCategoryMismatch
    | UnverifiableScope
    | CurrencyDiffers
    | AmountInvalid
    | ScopePerTxnExceeded
    | ScopeTotalExceeded
    | VelocityExceeded
    | InvalidState
    | ContextNotFound
    | ContextMismatch
    | ProofInvalid
    | AmountMismatch
    | UnboundProof
    | CartBindingMismatch
    | ContextBindingMismatch
    | MerchantBindingMismatch
    | NonceAlreadyUsed
    | FinalityInvalid
    | RailMismatch

  /** One cap's share of `Scope::validate`. */
  function CapFault(cap: Option<Money>, currency: Currency): Option<ScopeFault> {
    if cap.None? then None
    else if cap.value.currency != currency then Some(CapCurrencyDiffers)
    else if cap.value.amount < 0 then Some(CapNegative)
    else None
  }

  /** `Scope::validate`: the first inconsistency, if any. */
  function Fault(s: Scope): Option<ScopeFault> {
    if s.validFrom > s.validUntil then Some(WindowReversed)
    else if CapFault(s.maxPerTxn, s.currency).Some? then CapFault(s.maxPerTxn, s.currency)
    else if CapFault(s.maxTotal, s.currency).Some? then CapFault(s.maxTotal, s.currency)
    else if s.velocity.Some? && (s.velocity.value.maxCount == 0 || s.velocity.value.windowSecs <= 0) then
      Some(VelocityEmpty)
    else None
  }

  /** A window that is not reversed, caps in the scope's own currency and not negative, and a
      velocity that allows something. */
  predicate Sound(s: Scope) {
    && s.validFrom <= s.validUntil
    && (s.maxPerTxn.Some? ==> s.maxPerTxn.value.currency == s.currency && s.maxPerTxn.value.amount >= 0)
    && (s.maxTotal.Some? ==> s.maxTotal.value.currency == s.currency && s.maxTotal.value.amount >= 0)
    && (s.velocity.Some? ==> s.velocity.value.maxCount > 0 && s.velocity.value.windowSecs > 0)
  }

  lemma SoundExactly(s: Scope)
    ensures Fault(s).None? <==> Sound(s)
  {
  }

  /** `Scope::admits`: `None`, or why not. */
  function Refusal(s: Scope, claims: ScopeClaims, attestation: Attestation, now: Time): Option<DenyReason> {
    if now < s.validFrom then Some(MandateNotYetValid)
    else if now > s.validUntil then Some(MandateExpired)
    else if Weaker(attestation.Level(), s.minAttestation) then Some(AttestationInsufficient)
    else if !AnyMatches(s.merchants, claims.merchant) then Some(ScopeMerchantMismatch)
    else if s.categories.Some? && claims.category.None? then Some(UnverifiableScope)
    else if s.categories.Some? && claims.category.value !in s.categories.value then Some(ScopeCategoryMismatch)
    else if claims.total.currency != s.currency then Some(CurrencyDiffers)
    else if claims.total.amount < 0 then Some(AmountInvalid)
    else if s.maxPerTxn.Some? then
      match Exceeds(claims.total, s.maxPerTxn.value)
      case Err(_) => Some(CurrencyDiffers)
      case Ok(over) => if over then Some(ScopePerTxnExceeded) else None
    else None
  }

  predicate AnyMatches(patterns: seq<MerchantPattern>, merchant: string) {
    exists i :: 0 <= i < |patterns| && Matches(patterns[i], merchant)
  }

  predicate Admits(s: Scope, claims: ScopeClaims, attestation: Attestation, now: Time) {
    Refusal(s, claims, attestation, now).None?
  }

  predicate CapWithin(child: Option<Money>, parent: Option<Money>) {
    match (child, parent)
    case (_, None) => true
    case (None, Some(_)) => false
    case (Some(c), Some(p)) => Exceeds(c, p) == Ok(false)
  }

  predicate VelocityWithin(child: Option<Velocity>, parent: Option<Velocity>) {
    match (child, parent)
    case (_, None) => true
    case (None, Some(_)) => false
    case (Some(c), Some(p)) => c.maxCount <= p.maxCount && c.windowSecs >= p.windowSecs
  }

  predicate CategoriesWithin(child: Option<seq<Category>>, parent: Option<seq<Category>>) {
    match (child, parent)
    case (_, None) => true
    case (None, Some(_)) => false
    case (Some(c), Some(p)) => forall x :: x in c ==> x in p
  }

  predicate MerchantsWithin(child: seq<MerchantPattern>, parent: seq<MerchantPattern>) {
    forall i :: 0 <= i < |child| ==> Covered(child[i], parent)
  }

  predicate Covered(c: MerchantPattern, parent: seq<MerchantPattern>) {
    exists j :: 0 <= j < |parent| && IsSubset(c, parent[j])
  }

  /** `Scope::is_subset_of`. */
  predicate Within(child: Scope, parent: Scope) {
    && child.currency == parent.currency
    && MerchantsWithin(child.merchants, parent.merchants)
    && CategoriesWithin(child.categories, parent.categories)
    && CapWithin(child.maxPerTxn, parent.maxPerTxn)
    && CapWithin(child.maxTotal, parent.maxTotal)
    && child.validFrom >= parent.validFrom
    && child.validUntil <= parent.validUntil
    && VelocityWithin(child.velocity, parent.velocity)
    && !Weaker(child.minAttestation, parent.minAttestation)
  }

  datatype MandateError = InvalidScope(fault: ScopeFault) | NotSubset(id: MandateId)

  /** `MandateBody::attenuate`. */
  function Attenuate(body: MandateBody, id: MandateId, agent: AgentId, scope: Scope, issuedAt: Time)
    : Result<MandateBody, MandateError>
  {
    if Fault(scope).Some? then Err(InvalidScope(Fault(scope).value))
    else if !Within(scope, body.scope) then Err(NotSubset(id))
    else Ok(MandateBody(id, body.principal, agent, scope, issuedAt, Some(body.id)))
  }

  /** `next` was delegated from `prev`. */
  ghost predicate Delegates(prev: MandateBody, next: MandateBody) {
    Attenuate(prev, next.id, next.agent, next.scope, next.issuedAt) == Ok(next)
  }

  /** A delegation chain, root first. */
  ghost predicate DelegationChain(chain: seq<MandateBody>) {
    && chain != []
    && forall i :: 0 <= i < |chain| - 1 ==> Delegates(chain[i], chain[i + 1])
  }

  /** In its window, well enough attested, from a merchant some pattern matches, in an allowed
      category, for a non-negative total in the scope's currency within the transaction cap. */
  predicate InScope(s: Scope, claims: ScopeClaims, attestation: Attestation, now: Time) {
    && s.validFrom <= now <= s.validUntil
    && (s.minAttestation.MerchantLevel? ==> attestation.MerchantSigned?)
    && (exists i :: 0 <= i < |s.merchants| && Matches(s.merchants[i], claims.merchant))
    && (s.categories.Some? ==> claims.category.Some? && claims.category.value in s.categories.value)
    && claims.total.currency == s.currency && claims.total.amount >= 0
    && (s.maxPerTxn.Some? ==>
          s.maxPerTxn.value.currency == s.currency && claims.total.amount <= s.maxPerTxn.value.amount)
  }

  lemma AdmitsExactly(s: Scope, claims: ScopeClaims, attestation: Attestation, now: Time)
    ensures Admits(s, claims, attestation, now) <==> InScope(s, claims, attestation, now)
  {
    hide Matches;
  }

  lemma MerchantsSound(child: seq<MerchantPattern>, parent: seq<MerchantPattern>, m: string)
    requires MerchantsWithin(child, parent) && AnyMatches(child, m)
    ensures AnyMatches(parent, m)
  {
    var i :| 0 <= i < |child| && Matches(child[i], m);
    assert Covered(child[i], parent);
    var j :| 0 <= j < |parent| && IsSubset(child[i], parent[j]);
    SubsetSound(child[i], parent[j], m);
  }

  // ----- exactly when a scope is within another -----

  /** What a cap lets through. */
  predicate CapAllows(cap: Option<Money>, m: Money) {
    cap.Some? ==> m.currency == cap.value.currency && m.amount <= cap.value.amount
  }

  lemma CapExactly(child: Option<Money>, parent: Option<Money>)
    ensures CapWithin(child, parent) <==> forall m: Money :: CapAllows(child, m) ==> CapAllows(parent, m)
  {
    if parent.Some? {
      var other := Money(0, parent.value.currency + "x");
      assert |other.currency| != |parent.value.currency|;
      assert !CapAllows(parent, other);
      if child.Some? {
        assert CapAllows(child, child.value);
      } else {
        assert CapAllows(child, other);
      }
    }
  }

  /** Some parent pattern matches every merchant that `c` matches. A pattern too long to
      match any merchant needs to be a subset by its text. */
  ghost predicate CoveredBySome(c: MerchantPattern, parent: seq<MerchantPattern>) {
    exists j :: 0 <= j < |parent| && if Unmatchable(c) then IsSubset(c, parent[j]) else Covers(parent[j], c)
  }

  lemma CoveredExactly(c: MerchantPattern, parent: seq<MerchantPattern>)
    requires Canonical(c) && forall j :: 0 <= j < |parent| ==> Canonical(parent[j])
    ensures Covered(c, parent) <==> CoveredBySome(c, parent)
  {
    hide Patterns.Covers, IsSubset, Unmatchable, Canonical;
    forall j | 0 <= j < |parent|
      ensures Covers(parent[j], c) <==> IsSubset(c, parent[j]) || Unmatchable(c)
    {
      SubsetExact(c, parent[j]);
    }
  }

  /** Limit by limit, what the child lets through the parent lets through, and the child's
      rate allows no more in no shorter a window. */
  ghost predicate Narrows(child: Scope, parent: Scope) {
    && child.currency == parent.currency
    && (forall i :: 0 <= i < |child.merchants| ==> CoveredBySome(child.merchants[i], parent.merchants))
    && (parent.categories.Some? ==>
          child.categories.Some? && forall c :: c in child.categories.value ==> c in parent.categories.value)
    && (forall m: Money :: CapAllows(child.maxPerTxn, m) ==> CapAllows(parent.maxPerTxn, m))
    && (forall m: Money :: CapAllows(child.maxTotal, m) ==> CapAllows(parent.maxTotal, m))
    && parent.validFrom <= child.validFrom && child.validUntil <= parent.validUntil
    && (parent.velocity.Some? ==>
          && child.velocity.Some?
          && child.velocity.value.maxCount <= parent.velocity.value.maxCount
          && child.velocity.value.windowSecs >= parent.velocity.value.windowSecs)
    && (parent.minAttestation.MerchantLevel? ==> child.minAttestation.MerchantLevel?)
  }

  ghost predicate ParsedMerchants(s: Scope) {
    forall i :: 0 <= i < |s.merchants| ==> Canonical(s.merchants[i])
  }

  /** `is_subset_of` says yes exactly when every limit narrows. */
  lemma WithinExactly(child: Scope, parent: Scope)
    requires ParsedMerchants(child) && ParsedMerchants(parent)
    ensures Within(child, parent) <==> Narrows(child, parent)
  {
    hide CapWithin, CapAllows, CoveredBySome, Covered, Canonical;
    CapExactly(child.maxPerTxn, parent.maxPerTxn);
    CapExactly(child.maxTotal, parent.maxTotal);
    forall i | 0 <= i < |child.merchants|
      ensures Covered(child.merchants[i], parent.merchants) <==> CoveredBySome(child.merchants[i], parent.merchants)
    {
      CoveredExactly(child.merchants[i], parent.merchants);
    }
  }

  /** A mandate is attenuated exactly to scopes in order that narrow its own, and the child
      keeps the principal and names its parent. */
  lemma AttenuatesExactly(
    body: MandateBody, id: MandateId, agent: AgentId, scope: Scope, issuedAt: Time, child: MandateBody)
    requires ParsedMerchants(body.scope) && ParsedMerchants(scope)
    ensures Attenuate(body, id, agent, scope, issuedAt) == Ok(child) <==>
            && Sound(scope) && Narrows(scope, body.scope)
            && child.id == id && child.agent == agent && child.scope == scope && child.issuedAt == issuedAt
            && child.principal == body.principal && child.parent == Some(body.id)
  {
    hide Within, Narrows, Fault, Sound;
    SoundExactly(scope);
    WithinExactly(scope, body.scope);
  }

  /** Delegation only narrows: whatever the child scope admits, the parent admits. */
  lemma WithinAdmits(child: Scope, parent: Scope, claims: ScopeClaims, attestation: Attestation, now: Time)
    requires Within(child, parent)
    requires Admits(child, claims, attestation, now)
    ensures Admits(parent, claims, attestation, now)
  {
    MerchantsSound(child.merchants, parent.merchants, claims.merchant);
  }

  lemma MerchantsTransitive(a: seq<MerchantPattern>, b: seq<MerchantPattern>, c: seq<MerchantPattern>)
    requires MerchantsWithin(a, b) && MerchantsWithin(b, c)
    ensures MerchantsWithin(a, c)
  {
    forall i | 0 <= i < |a|
      ensures Covered(a[i], c)
    {
      assert Covered(a[i], b);
      var j :| 0 <= j < |b| && IsSubset(a[i], b[j]);
      assert Covered(b[j], c);
      var k :| 0 <= k < |c| && IsSubset(b[j], c[k]);
      SubsetTransitive(a[i], b[j], c[k]);
    }
  }

  lemma WithinTransitive(a: Scope, b: Scope, c: Scope)
    requires Within(a, b) && Within(b, c)
    ensures Within(a, c)
  {
    MerchantsTransitive(a.merchants, b.merchants, c.merchants);
  }

  /** Through a delegation chain of any length, the last mandate stays within every
      earlier one and is granted by the same principal. */
  lemma {:induction false} DelegationNarrows(chain: seq<MandateBody>, i: nat)
    requires DelegationChain(chain) && i < |chain| - 1
    ensures Within(Last(chain).scope, chain[i].scope)
    ensures Last(chain).principal == chain[i].principal
    decreases |chain|
  {
    hide Within, Fault;
    var n := |chain|;
    assert Delegates(chain[n - 2], chain[n - 1]);
    if i < n - 2 {
      var shorter := DropLast(chain);
      DelegationNarrows(shorter, i);
      WithinTransitive(chain[n - 1].scope, chain[n - 2].scope, chain[i].scope);
    }
  }

  /** Whatever the end of a delegation chain admits, every mandate up to the root admits. */
  lemma DelegationAdmits(chain: seq<MandateBody>, i: nat, claims: ScopeClaims, attestation: Attestation, now: Time)
    requires DelegationChain(chain) && i < |chain|
    requires Admits(Last(chain).scope, claims, attestation, now)
    ensures Admits(chain[i].scope, claims, attestation, now)
  {
    hide Within, Admits;
    if i < |chain| - 1 {
      DelegationNarrows(chain, i);
      WithinAdmits(Last(chain).scope, chain[i].scope, claims, attestation, now);
    }
  }
}
