/** Identifiers, exact money and saturating time (ml-core: ids, money, time, hash, cart). */
module Domain {
  import opened Prelude

  type ContextId = string
  type MandateId = string
  type PrincipalId = string
  type AgentId = string
  type Category = string
  type Currency = string
  type Key = seq<int>

  /** A content digest. Hashes are free constructors, so distinct contents have
      distinct digests without any assumption about SHA-256. */
  datatype Digest = Content(raw: seq<int>) | Idempotency(ctx: ContextId, rail: string, nonce: string)

  // ----- time -----

  const I64_MIN: int := -0x8000_0000_0000_0000
  const I64_MAX: int := 0x7fff_ffff_ffff_ffff

  type Time = t: int | I64_MIN <= t <= I64_MAX witness 0

  /** `i64::saturating_sub`. */
  function SatSub(t: Time, secs: Time): Time {
    if t - secs < I64_MIN then I64_MIN
    else if t - secs > I64_MAX then I64_MAX
    else t - secs
  }

  // ----- money -----

  /** Amounts count units of 10^-28, the finest scale of a `Decimal`; the bound
      is the largest `Decimal`, (2^96 - 1) whole units. */
  const DECIMAL_SCALE: int := 10000000000000000000000000000
  const DECIMAL_MAX: int := 79228162514264337593543950335 * DECIMAL_SCALE

  type Amount = a: int | -DECIMAL_MAX <= a <= DECIMAL_MAX witness 0

  datatype Money = Money(amount: Amount, currency: Currency)

  datatype MoneyError = CurrencyMismatch(left: Currency, right: Currency) | Overflow

  function Zero(currency: Currency): Money {
    Money(0, currency)
  }

  function CheckedAdd(a: Money, b: Money): Result<Money, MoneyError> {
    if a.currency != b.currency then Err(CurrencyMismatch(a.currency, b.currency))
    else if -DECIMAL_MAX <= a.amount + b.amount <= DECIMAL_MAX then
      Ok(Money(a.amount + b.amount, a.currency))
    else Err(Overflow)
  }

  function CheckedSub(a: Money, b: Money): Result<Money, MoneyError> {
    if a.currency != b.currency then Err(CurrencyMismatch(a.currency, b.currency))
    else if -DECIMAL_MAX <= a.amount - b.amount <= DECIMAL_MAX then
      Ok(Money(a.amount - b.amount, a.currency))
    else Err(Overflow)
  }

  /** `cmp_same_currency(a, b)? == Greater`. */
  function Exceeds(a: Money, b: Money): Result<bool, MoneyError> {
    if a.currency != b.currency then Err(CurrencyMismatch(a.currency, b.currency))
    else Ok(a.amount > b.amount)
  }

  // ----- carts -----

  datatype AttestationLevel = AgentLevel | MerchantLevel

  datatype Attestation = MerchantSigned(keyId: string) | AgentReported {
    function Level(): AttestationLevel {
      if MerchantSigned? then MerchantLevel else AgentLevel
    }
  }

  /** `a < b` in the attestation order. */
  predicate Weaker(a: AttestationLevel, b: AttestationLevel) {
    a.AgentLevel? && b.MerchantLevel?
  }

  datatype ScopeClaims = ScopeClaims(
    merchant: string, total: Money, category: Option<Category>, lineCount: Option<nat>)

  /** A normalized cart. As stored in an `Authorized` event it is a `CartSnapshot`
      with the same four fields, so one type serves for both. */
  datatype Cart = Cart(hash: Digest, claims: ScopeClaims, attestation: Attestation, raw: seq<int>)
}
