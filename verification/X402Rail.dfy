/** The x402 rail: what a payment proves, and what evidence settles or fails it
    (ml-adapters: x402/rail, x402/finality, x402/cart, x402/payment). */
module X402Rail {
  import opened Prelude
  import opened Domain
  import Patterns
  import opened Rails
  import opened X402Text
  import opened X402Reference

  // ----- configuration -----

  datatype Asset = Asset(symbol: Currency, decimals: Byte, domainName: string, domainVersion: string)

  type Confirmations = n: nat | 0 < n <= 0xffff_ffff witness 1

  datatype Policy = Policy(confirmations: Confirmations, trustFacilitator: bool, expiryGrace: U64)

  /** What a payer signs. */
  datatype Authorization = Authorization(
    from: Address, to: Address, value: nat, validAfter: U64, validBefore: U64, nonce: Word)

  /** The rail. Keccak and signature recovery are arbitrary functions: `checksummed` is the
      EIP-55 check, `used` and `moved` the two event topics, `binding` the nonce that binds
      a payment to a context, and `signer` who signed an authorization for a token. */
  datatype Config = Config(
    id: string,
    registry: map<(U64, Address), Asset>,
    policy: Policy,
    checksummed: string -> bool,
    used: Word,
    moved: Word,
    binding: ContextId -> Word,
    signer: (U64, Address, Asset, Authorization, seq<Byte>) -> Option<Address>)

  // ----- fields -----

  const MAX_UINT_DIGITS: nat := 78
  const U128_MAX: nat := 0xffff_ffff_ffff_ffff_ffff_ffff_ffff_ffff
  const MANTISSA_MAX: nat := 79228162514264337593543950335
  const MAX_SCALE: nat := 28

  /** `fields::uint`. */
  function Uint(s: string): (r: Option<nat>)
    ensures r.Some? ==> PrintNat(r.value) == s && r.value <= U128_MAX
  {
    if !X402Text.Canonical(s) || |s| > MAX_UINT_DIGITS then None
    else
      CanonicalPrinted(s);
      if DigitsValue(s) > U128_MAX then None else Some(DigitsValue(s))
  }

  function Time64(s: string): Option<U64> {
    var n := Uint(s);
    if n.None? || n.value > U64_MAX then None else Some(n.value)
  }

  lemma {:induction false} NatShort(n: nat, digits: nat)
    requires n < Pow10(digits) && digits > 0
    ensures |PrintNat(n)| <= digits
  {
    if n >= 10 {
      assert digits > 1;
      NatShort(n / 10, digits - 1);
    }
  }

  lemma U128Short(n: nat)
    requires n <= U128_MAX
    ensures |PrintNat(n)| <= MAX_UINT_DIGITS
  {
    assert Pow10(5) == 100000;
    assert Pow10(10) == 10000000000;
    assert Pow10(20) == 10000000000 * 10000000000 by { PowSum(10, 10); }
    assert Pow10(40) == Pow10(20) * Pow10(20) by { PowSum(20, 20); }
    NatShort(n, 40);
  }

  lemma {:induction false} PowSum(a: nat, b: nat)
    ensures Pow10(a + b) == Pow10(a) * Pow10(b)
  {
    if b > 0 {
      PowSum(a, b - 1);
      TenTimes(Pow10(a), Pow10(b - 1));
    }
  }

  lemma TenTimes(a: nat, b: nat)
    ensures 10 * (a * b) == a * (10 * b)
  {
  }

  /** A number is read from its printed form alone. */
  lemma UintExactly(s: string, n: nat)
    ensures Uint(s) == Some(n) <==> n <= U128_MAX && s == PrintNat(n)
    ensures n <= U64_MAX ==> (Time64(s) == Some(n) <==> s == PrintNat(n))
  {
    hide DigitsValue, PrintNat;
    if n <= U128_MAX && s == PrintNat(n) {
      U128Short(n);
      PrintedNat(n);
    }
  }

  function Pow10(n: nat): (p: nat)
    ensures p > 0
  {
    if n == 0 then 1 else 10 * Pow10(n - 1)
  }

  lemma {:induction false} PowMonotone(a: nat, b: nat)
    requires a <= b
    ensures Pow10(a) <= Pow10(b)
  {
    if a < b {
      PowMonotone(a, b - 1);
    }
  }

  lemma ScaleIsPow()
    ensures Pow10(MAX_SCALE) == DECIMAL_SCALE
  {
    assert Pow10(7) == 10000000;
    assert Pow10(14) == 100000000000000;
    assert Pow10(21) == 1000000000000000000000;
  }

  lemma PricedInRange(atomic: nat, decimals: nat)
    requires atomic <= MANTISSA_MAX && decimals <= MAX_SCALE
    ensures 0 <= atomic * Pow10(MAX_SCALE - decimals) <= DECIMAL_MAX
  {
    ScaleIsPow();
    PowMonotone(MAX_SCALE - decimals, MAX_SCALE);
    var p := Pow10(MAX_SCALE - decimals);
    assert atomic * p <= MANTISSA_MAX * DECIMAL_SCALE by { ProductBounded(atomic, p, MANTISSA_MAX, DECIMAL_SCALE); }
  }

  lemma ProductBounded(a: nat, b: nat, c: nat, d: nat)
    requires a <= c && b <= d
    ensures a * b <= c * d
  {
  }

  /** `fields::money`: atomic units, exactly, with the token's decimals as the scale. */
  function Price(atomic: nat, token: Asset): Option<Money> {
    if atomic > MANTISSA_MAX || token.decimals > MAX_SCALE then None
    else
      PricedInRange(atomic, token.decimals);
      Some(Money(atomic * Pow10(MAX_SCALE - token.decimals), token.symbol))
  }

  /** `m` is what `atomic` units of `token` are worth: the units as a 96-bit mantissa, with
      the token's decimals as the scale. */
  predicate Worth(atomic: nat, token: Asset, m: Money) {
    && atomic <= MANTISSA_MAX && token.decimals <= MAX_SCALE
    && m.currency == token.symbol && m.amount * Pow10(token.decimals) == atomic * DECIMAL_SCALE
  }

  lemma SameFactor(a: int, b: int, p: nat)
    requires p > 0 && a * p == b * p
    ensures a == b
  {
    assert (a - b) * p == 0;
  }

  lemma Regroup(a: int, b: int, c: int)
    ensures a * b * c == a * (b * c)
  {
  }

  /** A token's units are priced at exactly what they are worth, and only if that can be held. */
  lemma PriceExactly(atomic: nat, token: Asset, m: Money)
    ensures Price(atomic, token) == Some(m) <==> Worth(atomic, token, m)
  {
    hide Pow10;
    if atomic <= MANTISSA_MAX && token.decimals <= MAX_SCALE {
      var p, q := Pow10(token.decimals), Pow10(MAX_SCALE - token.decimals);
      ScaleIsPow();
      PowSum(MAX_SCALE - token.decimals, token.decimals);
      PricedInRange(atomic, token.decimals);
      Regroup(atomic, q, p);
      if m.amount * p == atomic * DECIMAL_SCALE {
        SameFactor(m.amount, atomic * q, p);
      }
    }
  }

  /** Hence one amount of a token is one number of atomic units. */
  lemma PriceTells(a: nat, b: nat, token: Asset)
    requires Price(a, token).Some? && Price(a, token) == Price(b, token)
    ensures a == b
  {
    var m := Price(a, token).value;
    PriceExactly(a, token, m);
    PriceExactly(b, token, m);
    SameFactor(a, b, DECIMAL_SCALE);
  }

  // ----- receipts -----

  /** Block heights leave room for the confirmation count to fit in a `u64`. */
  type Height = n: nat | n < U64_MAX witness 0

  datatype Log = Log(address: string, topics: seq<string>, data: string)

  datatype Receipt = Receipt(transactionHash: string, blockNumber: string, status: string, logs: seq<Log>)

  datatype Response = Response(
    success: bool, errorReason: Option<string>, payer: Option<string>, transaction: string,
    network: string, amount: Option<string>)

  datatype Finality =
    | FacilitatorSays(response: Response)
    | ReceiptShows(network: string, head: Height, receipt: Receipt)

  predicate AllHex(s: string) {
    forall i :: 0 <= i < |s| ==> HexValue(s[i]).Some?
  }

  function HexNumber(s: string): nat
    requires AllHex(s)
  {
    if s == "" then 0 else 16 * HexNumber(DropLast(s)) + HexValue(Last(s)).value
  }

  /** `finality::quantity`, the plus sign that `from_str_radix` takes included. */
  function Quantity(s: string): Option<nat> {
    if !(HEX_PREFIX <= s) || |s| == 2 || |s| > 18 then None
    else
      var digits := if s[2] == '+' then s[3..] else s[2..];
      if digits == "" || !AllHex(digits) then None else Some(HexNumber(digits))
  }

  predicate AllZero(bytes: seq<Byte>) {
    forall i :: 0 <= i < |bytes| ==> bytes[i] == 0
  }

  /** An address in an indexed topic: twelve zero bytes, then the address. */
  function TopicAddress(topic: string): Option<Address> {
    var word := Bytes(32, topic);
    if word.None? || !AllZero(word.value[..12]) then None else Some(word.value[12..])
  }

  function BigEndian(bytes: seq<Byte>): nat {
    if bytes == [] then 0 else 256 * BigEndian(DropLast(bytes)) + Last(bytes)
  }

  predicate IsEvent(cfg: Config, log: Log, token: Address, topic: Word) {
    && ParseAddress(cfg.checksummed, log.address) == Some(token)
    && |log.topics| == 3 && Bytes(32, log.topics[0]) == Some(topic)
  }

  /** `Log::authorization_used`. */
  function UsedBy(cfg: Config, log: Log, token: Address): Option<(Address, Word)> {
    if !IsEvent(cfg, log, token, cfg.used) then None
    else
      var authorizer, nonce := TopicAddress(log.topics[1]), Bytes(32, log.topics[2]);
      if authorizer.None? || nonce.None? then None else Some((authorizer.value, nonce.value))
  }

  /** `Log::transfer`. */
  function MovedBy(cfg: Config, log: Log, token: Address): Option<(Address, Address, nat)> {
    if !IsEvent(cfg, log, token, cfg.moved) then None
    else
      var value := Bytes(32, log.data);
      if value.None? || !AllZero(value.value[..16]) then None
      else
        var from, to := TopicAddress(log.topics[1]), TopicAddress(log.topics[2]);
        if from.None? || to.None? then None else Some((from.value, to.value, BigEndian(value.value[16..])))
  }

  // ----- finality -----

  predicate ShowsUse(cfg: Config, payment: AuthorizationRef, log: Log) {
    UsedBy(cfg, log, payment.token) == Some((payment.from, payment.nonce))
  }

  predicate ShowsTransfer(
    cfg: Config, payment: AuthorizationRef, token: Asset, expected: SettlementExpectation, log: Log)
  {
    var moved := MovedBy(cfg, log, payment.token);
    && moved.Some? && moved.value.0 == payment.from
    && Patterns.NewMerchant(AccountId(payment.chain, moved.value.1)) == Some(expected.merchant)
    && Price(moved.value.2, token) == Some(expected.amount)
  }

  function FinalOrPending(cfg: Config, transaction: string, confirmations: nat): FinalityStatus {
    if confirmations >= cfg.policy.confirmations then Final(Patterns.Lower(transaction)) else Pending
  }

  function JudgeReceipt(
    cfg: Config, payment: AuthorizationRef, expected: SettlementExpectation, head: Height, receipt: Receipt)
    : Result<FinalityStatus, RailError>
  {
    var block := Quantity(receipt.blockNumber);
    if Bytes(32, receipt.transactionHash).None? then Err(InvalidProof)
    else if block.None? then Err(InvalidProof)
    else if head < block.value then Err(InvalidProof)
    else if receipt.status == "0x0" then Ok(Pending)
    else if receipt.status != "0x1" then Err(InvalidProof)
    else if (payment.chain, payment.token) !in cfg.registry then Err(InvalidProof)
    else
      var token := cfg.registry[(payment.chain, payment.token)];
      if !(exists i :: 0 <= i < |receipt.logs| && ShowsUse(cfg, payment, receipt.logs[i])) then Err(InvalidProof)
      else if !(exists i :: 0 <= i < |receipt.logs| && ShowsTransfer(cfg, payment, token, expected, receipt.logs[i]))
      then Err(InvalidProof)
      else Ok(FinalOrPending(cfg, receipt.transactionHash, head - block.value + 1))
  }

  /** The facilitator's own figures are for this payment, where it gives any. */
  predicate ForThisPayment(
    cfg: Config, payment: AuthorizationRef, expected: SettlementExpectation, response: Response)
  {
    && response.network == PrintChain(payment.chain)
    && (response.payer.Some? ==> ParseAddress(cfg.checksummed, response.payer.value) == Some(payment.from))
    && (response.amount.Some? ==>
          && (payment.chain, payment.token) in cfg.registry
          && Uint(response.amount.value).Some?
          && Price(Uint(response.amount.value).value, cfg.registry[(payment.chain, payment.token)])
               == Some(expected.amount))
  }

  const SETTLEMENT_PENDING: string := "settlement_pending"
  const SETTLEMENT_FAILED: string := "settlement failed"

  function Reason(response: Response): string {
    if response.errorReason.Some? then response.errorReason.value else SETTLEMENT_FAILED
  }

  function JudgeFacilitator(
    cfg: Config, now: Time, payment: AuthorizationRef, expected: SettlementExpectation, response: Response)
    : Result<FinalityStatus, RailError>
  {
    if !ForThisPayment(cfg, payment, expected, response) then Err(InvalidProof)
    else if response.success then
      if Bytes(32, response.transaction).None? then Err(InvalidProof)
      else if cfg.policy.trustFacilitator then Ok(Final(Patterns.Lower(response.transaction)))
      else Ok(Pending)
    else if Reason(response) == SETTLEMENT_PENDING || !cfg.policy.trustFacilitator then Ok(Pending)
    else if now < payment.validBefore + cfg.policy.expiryGrace then Ok(Pending)
    else Ok(Failed(Reason(response)))
  }

  /** `X402Rail::check_finality`, by the rail's clock reading `now`. */
  function CheckFinality(cfg: Config, now: Time, evidence: Finality, expected: SettlementExpectation)
    : Result<FinalityStatus, RailError>
  {
    var payment := Parse(cfg.checksummed, expected.paymentReference);
    if payment.None? then Err(InvalidProof)
    else
      match evidence
      case FacilitatorSays(response) => JudgeFacilitator(cfg, now, payment.value, expected, response)
      case ReceiptShows(network, head, receipt) =>
        if network != PrintChain(payment.value.chain) then Err(InvalidProof)
        else JudgeReceipt(cfg, payment.value, expected, head, receipt)
  }

  // ----- proofs -----

  /** A payment requirement. `extra` says whether its `extra` object asks for EIP-3009 under
      a token's own EIP-712 domain. */
  datatype Requirement = Requirement(
    scheme: string, network: string, amount: string, asset: string, payTo: string,
    maxTimeoutSeconds: nat, extra: Asset -> bool)

  datatype Terms = Terms(chain: U64, asset: Address, token: Asset, payTo: Address, atomic: nat, total: Money)

  const ZERO_ADDRESS: Address := seq(20, _ => 0)

  /** `X402CartAdapter::terms`. */
  function TermsOf(cfg: Config, r: Requirement): Option<Terms> {
    var chain, asset := ReadChain(r.network), ParseAddress(cfg.checksummed, r.asset);
    var payTo, atomic := ParseAddress(cfg.checksummed, r.payTo), Uint(r.amount);
    if r.scheme != "exact" || chain.None? || asset.None? then None
    else if (chain.value, asset.value) !in cfg.registry then None
    else if payTo.None? || payTo.value == ZERO_ADDRESS || payTo.value == asset.value || atomic.None? then None
    else
      var token := cfg.registry[(chain.value, asset.value)];
      var total := Price(atomic.value, token);
      if total.None? || r.maxTimeoutSeconds == 0 || !r.extra(token) then None
      else Some(Terms(chain.value, asset.value, token, payTo.value, atomic.value, total.value))
  }

  /** The authorization as the wire carries it. */
  datatype Body = Body(from: string, to: string, value: string, validAfter: string, validBefore: string, nonce: string)

  datatype Payload = Payload(x402Version: nat, accepted: Requirement, signature: string, authorization: Body)

  /** `ExactEvmPayload::parse`, the signature aside. */
  function AuthorizationOf(cfg: Config, b: Body): Option<Authorization> {
    var from, to := ParseAddress(cfg.checksummed, b.from), ParseAddress(cfg.checksummed, b.to);
    var value, nonce := Uint(b.value), Bytes(32, b.nonce);
    var validAfter, validBefore := Time64(b.validAfter), Time64(b.validBefore);
    if from.None? || to.None? || value.None? || validAfter.None? || validBefore.None? || nonce.None? then None
    else Some(Authorization(from.value, to.value, value.value, validAfter.value, validBefore.value, nonce.value))
  }

  const SETTLEMENT_MARGIN_SECS: int := 6

  predicate Fresh(auth: Authorization, now: Time) {
    auth.validBefore >= now + SETTLEMENT_MARGIN_SECS && auth.validAfter <= now
  }

  function RefOf(terms: Terms, auth: Authorization): AuthorizationRef {
    AuthorizationRef(terms.chain, terms.asset, auth.from, auth.nonce, auth.validBefore)
  }

  /** The checks on a proof that no clock enters: the terms and the authorization, signed by
      its payer, if it pays what it claims to. */
  function Signed(cfg: Config, proof: Payload): Option<(Terms, Authorization)> {
    var terms, auth := TermsOf(cfg, proof.accepted), AuthorizationOf(cfg, proof.authorization);
    var signature := Bytes(65, proof.signature);
    if proof.x402Version != 2 || terms.None? || auth.None? || signature.None? then None
    else if auth.value.to != terms.value.payTo || auth.value.value != terms.value.atomic then None
    else if cfg.signer(terms.value.chain, terms.value.asset, terms.value.token, auth.value, signature.value)
            != Some(auth.value.from) then None
    else Some((terms.value, auth.value))
  }

  /** `X402Rail::verify_proof`, by the rail's clock reading `now`. */
  function VerifyProof(cfg: Config, now: Time, proof: Payload, expected: PaymentExpectation)
    : Result<VerifiedProof, RailError>
  {
    var signed := Signed(cfg, proof);
    if signed.None? then Err(InvalidProof)
    else
      var (terms, auth) := signed.value;
      var payment := RefOf(terms, auth);
      var merchant := Patterns.NewMerchant(AccountId(terms.chain, auth.to));
      var amount := Price(auth.value, terms.token);
      if expected.recordedReference != Some(Print(payment)) && !Fresh(auth, now) then Err(InvalidProof)
      else if amount.None? || merchant.None? then Err(InvalidProof)
      else
        Ok(VerifiedProof(Print(payment), Identity(payment), amount.value,
                         if auth.nonce == cfg.binding(expected.ctx) then Some(expected.ctx) else None,
                         None, merchant))
  }
}
