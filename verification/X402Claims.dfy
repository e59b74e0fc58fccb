/** What the x402 rail's answers mean, and what the engine's runs may therefore rely on. */
module X402Claims {
  import opened Prelude
  import opened Domain
  import Patterns
  import opened Rails
  import opened X402Text
  import opened X402Reference
  import opened X402Rail
  import opened X402Logs

  // ----- accounts are merchants -----

  /** A character that merchant ids keep as it is, in one byte. */
  predicate PlainChar(c: char) {
    c < '\U{80}' && !Patterns.IsSpace(c) && Patterns.LowerChar(c) == c
  }

  predicate Plain(s: string) {
    forall i :: 0 <= i < |s| ==> PlainChar(s[i])
  }

  lemma {:induction false} PlainBytes(s: string)
    requires Plain(s)
    ensures Patterns.ByteLen(s) == |s|
    decreases |s|
  {
    if s != "" {
      PlainBytes(s[1..]);
    }
  }

  lemma HexDigitPlain(n: nat)
    requires n < 16
    ensures PlainChar(HexDigit(n))
  {
  }

  lemma {:induction false} HexPlain(bytes: seq<Byte>)
    ensures Plain(HexOf(bytes)) && |HexOf(bytes)| == 2 * |bytes|
  {
    hide PlainChar, HexDigit;
    if bytes != [] {
      HexPlain(DropLast(bytes));
      HexDigitPlain(Last(bytes) / 16);
      HexDigitPlain(Last(bytes) % 16);
    }
  }

  lemma {:induction false} NatPlain(n: nat, digits: nat)
    requires n < Pow10(digits) && digits > 0
    ensures Plain(PrintNat(n)) && |PrintNat(n)| <= digits
  {
    if n >= 10 {
      assert digits > 1;
      NatPlain(n / 10, digits - 1);
    }
  }

  lemma U64Digits(n: U64)
    ensures n < Pow10(20)
  {
    assert Pow10(5) == 100000;
    assert Pow10(10) == 10000000000;
    assert Pow10(15) == 1000000000000000;
  }

  lemma AccountPlain(chain: U64, a: Address)
    ensures Plain(AccountId(chain, a)) && 0 < |AccountId(chain, a)| <= 256
  {
    hide PlainChar, HexOf, PrintNat;
    U64Digits(chain);
    NatPlain(chain, 20);
    HexPlain(a);
    MarksPlain();
    PlainAppend(EIP155, ":");
    PlainAppend(EIP155 + ":", PrintNat(chain));
    PlainAppend(PrintChain(chain), ":");
    PlainAppend(HEX_PREFIX, HexOf(a));
    PlainAppend(PrintChain(chain) + ":", PrintBytes(a));
  }

  lemma PlainAppend(s: string, t: string)
    requires Plain(s) && Plain(t)
    ensures Plain(s + t)
  {
  }

  lemma MarksPlain()
    ensures Plain(EIP155) && Plain(":") && Plain(HEX_PREFIX)
  {
  }

  lemma PlainIsMerchant(s: string)
    requires Plain(s) && 0 < |s| <= 256
    ensures Patterns.IsMerchant(s)
  {
    hide Patterns.ByteLen;
    PlainBytes(s);
    assert PlainChar(s[0]) && PlainChar(s[|s| - 1]);
  }

  /** `MerchantId::new` takes an account id as it is, so it never fails on one. */
  lemma AccountIsMerchant(chain: U64, a: Address)
    ensures Patterns.NewMerchant(AccountId(chain, a)) == Some(AccountId(chain, a))
  {
    hide AccountId, Plain, Patterns.IsMerchant, Patterns.NewMerchant;
    AccountPlain(chain, a);
    PlainIsMerchant(AccountId(chain, a));
    MerchantTaken(AccountId(chain, a));
  }

  lemma MerchantTaken(s: string)
    requires Patterns.IsMerchant(s)
    ensures Patterns.NewMerchant(s) == Some(s)
  {
  }

  /** One account id, one chain and one address: the same address elsewhere is another merchant. */
  lemma AccountTells(c: U64, a: Address, d: U64, b: Address)
    requires AccountId(c, a) == AccountId(d, b)
    ensures c == d && a == b
  {
    hide Split, PrintBytes, PrintNat, PrintChain;
    SplitChain(c);
    SplitChain(d);
    BytesHaveNoColon(a);
    BytesHaveNoColon(b);
    SplitSnoc(PrintChain(c), PrintBytes(a));
    SplitSnoc(PrintChain(d), PrintBytes(b));
    var p, q := Split(AccountId(c, a)), Split(AccountId(d, b));
    assert p[1] == q[1] && p[2] == q[2];
    NatTold(c, d);
    BytesTold(a, b);
  }

  // ----- what an answer means -----

  /** The facilitator names this payment's network and, where it names them, its payer and
      what its amount is worth. */
  ghost predicate ReportsOn(
    cfg: Config, payment: AuthorizationRef, expected: SettlementExpectation, response: Response)
  {
    && response.network == PrintChain(payment.chain)
    && (response.payer.Some? ==> ParseAddress(cfg.checksummed, response.payer.value) == Some(payment.from))
    && (response.amount.Some? ==>
          && (payment.chain, payment.token) in cfg.registry
          && exists n: nat :: response.amount.value == PrintNat(n)
               && Worth(n, cfg.registry[(payment.chain, payment.token)], expected.amount))
  }

  lemma ReportsExactly(
    cfg: Config, payment: AuthorizationRef, expected: SettlementExpectation, response: Response)
    ensures ForThisPayment(cfg, payment, expected, response) <==> ReportsOn(cfg, payment, expected, response)
  {
    hide ParseAddress, Uint, Price, PrintNat, PrintChain, Pow10;
    if response.amount.Some? && (payment.chain, payment.token) in cfg.registry {
      var s, token := response.amount.value, cfg.registry[(payment.chain, payment.token)];
      if Uint(s).Some? {
        UintExactly(s, Uint(s).value);
        PriceExactly(Uint(s).value, token, expected.amount);
      }
      forall n: nat | s == PrintNat(n) && Worth(n, token, expected.amount)
        ensures Uint(s) == Some(n) && Price(n, token) == Some(expected.amount)
      {
        UintExactly(s, n);
        PriceExactly(n, token, expected.amount);
      }
    }
  }

  /** What a failed response gives as its cause. */
  predicate Blames(response: Response, cause: string) {
    if response.errorReason.Some? then response.errorReason.value == cause else cause == "settlement failed"
  }

  /** A trusted facilitator reported this payment's terminal failure, when the authorization
      could no longer be executed even allowing for the chain's clock. */
  ghost predicate FailureShown(
    cfg: Config, now: Time, evidence: Finality, expected: SettlementExpectation, cause: string)
  {
    var payment := Parse(cfg.checksummed, expected.paymentReference);
    && payment.Some? && evidence.FacilitatorSays? && cfg.policy.trustFacilitator
    && ReportsOn(cfg, payment.value, expected, evidence.response)
    && !evidence.response.success && Blames(evidence.response, cause) && cause != "settlement_pending"
    && now >= payment.value.validBefore + cfg.policy.expiryGrace
  }

  /** The rail says a payment failed exactly when that was shown; no receipt can show it. */
  lemma FailedExactly(cfg: Config, now: Time, evidence: Finality, expected: SettlementExpectation, cause: string)
    ensures CheckFinality(cfg, now, evidence, expected) == Ok(Failed(cause)) <==>
            FailureShown(cfg, now, evidence, expected, cause)
  {
    hide Parse, ForThisPayment, ShowsUse, ShowsTransfer, Bytes, Quantity, Patterns.Lower, PrintChain, ReportsOn;
    var payment := Parse(cfg.checksummed, expected.paymentReference);
    if payment.Some? && evidence.FacilitatorSays? {
      ReportsExactly(cfg, payment.value, expected, evidence.response);
    }
  }

  /** `log` is of the payment's token, and moved `value` of its units, worth the payment's
      money, from its payer to `to`, the merchant. */
  predicate Moved(
    cfg: Config, payment: AuthorizationRef, expected: SettlementExpectation, to: Address, value: nat, log: Log)
  {
    && TransferLogged(cfg, payment.token, payment.from, to, value, log)
    && AccountId(payment.chain, to) == expected.merchant
    && (payment.chain, payment.token) in cfg.registry
    && Worth(value, cfg.registry[(payment.chain, payment.token)], expected.amount)
  }

  /** The receipt's logs execute this authorization and move this money. */
  ghost predicate Executes(
    cfg: Config, payment: AuthorizationRef, expected: SettlementExpectation, receipt: Receipt)
  {
    && (exists i :: 0 <= i < |receipt.logs| && UseLogged(cfg, payment, receipt.logs[i]))
    && (exists i, to: Address, value: nat ::
          0 <= i < |receipt.logs| && Moved(cfg, payment, expected, to, value, receipt.logs[i]))
  }

  /** The receipt is of a successful transaction on the payment's chain, deep enough under
      the head, whose logs execute this authorization and move this money. */
  ghost predicate ReceiptSettles(
    cfg: Config, payment: AuthorizationRef, expected: SettlementExpectation, evidence: Finality)
  {
    && evidence.ReceiptShows? && evidence.network == PrintChain(payment.chain)
    && var r := evidence.receipt;
       && r.status == "0x1" && Quantity(r.blockNumber).Some?
       && Quantity(r.blockNumber).value + cfg.policy.confirmations <= evidence.head + 1
       && Executes(cfg, payment, expected, r)
  }

  ghost predicate FacilitatorSettles(
    cfg: Config, payment: AuthorizationRef, expected: SettlementExpectation, evidence: Finality)
  {
    && evidence.FacilitatorSays? && cfg.policy.trustFacilitator
    && ReportsOn(cfg, payment, expected, evidence.response) && evidence.response.success
  }

  /** The transaction a piece of evidence names. */
  function Transaction(evidence: Finality): string {
    match evidence
    case FacilitatorSays(response) => response.transaction
    case ReceiptShows(_, _, receipt) => receipt.transactionHash
  }

  ghost predicate SettlementShown(cfg: Config, evidence: Finality, expected: SettlementExpectation, reference: string) {
    var payment := Parse(cfg.checksummed, expected.paymentReference);
    && payment.Some? && Bytes(32, Transaction(evidence)).Some? && reference == Patterns.Lower(Transaction(evidence))
    && (|| ReceiptSettles(cfg, payment.value, expected, evidence)
        || FacilitatorSettles(cfg, payment.value, expected, evidence))
  }

  lemma TransferIsMoved(cfg: Config, payment: AuthorizationRef, expected: SettlementExpectation, log: Log)
    requires (payment.chain, payment.token) in cfg.registry
    ensures ShowsTransfer(cfg, payment, cfg.registry[(payment.chain, payment.token)], expected, log) <==>
            exists to: Address, value: nat :: Moved(cfg, payment, expected, to, value, log)
  {
    hide MovedBy, Price, AccountId, Patterns.NewMerchant, Pow10, TransferLogged;
    var token := cfg.registry[(payment.chain, payment.token)];
    var moved := MovedBy(cfg, log, payment.token);
    if moved.Some? {
      var (from, to, value) := moved.value;
      AccountIsMerchant(payment.chain, to);
      TransferExactly(cfg, payment.token, from, to, value, log);
      PriceExactly(value, token, expected.amount);
      if ShowsTransfer(cfg, payment, token, expected, log) {
        assert Moved(cfg, payment, expected, to, value, log);
      }
    }
    forall to: Address, value: nat | Moved(cfg, payment, expected, to, value, log)
      ensures moved == Some((payment.from, to, value))
    {
      TransferExactly(cfg, payment.token, payment.from, to, value, log);
    }
  }

  /** What the receipt judge looks for among the logs. */
  ghost predicate Found(cfg: Config, payment: AuthorizationRef, expected: SettlementExpectation, logs: seq<Log>) {
    && (payment.chain, payment.token) in cfg.registry
    && (exists i :: 0 <= i < |logs| && ShowsUse(cfg, payment, logs[i]))
    && (exists i :: 0 <= i < |logs|
          && ShowsTransfer(cfg, payment, cfg.registry[(payment.chain, payment.token)], expected, logs[i]))
  }

  lemma FoundExactly(cfg: Config, payment: AuthorizationRef, expected: SettlementExpectation, receipt: Receipt)
    ensures Found(cfg, payment, expected, receipt.logs) <==> Executes(cfg, payment, expected, receipt)
  {
    hide ShowsUse, ShowsTransfer, UseLogged, TransferLogged, Worth, AccountId;
    var logs := receipt.logs;
    forall i | 0 <= i < |logs|
      ensures ShowsUse(cfg, payment, logs[i]) <==> UseLogged(cfg, payment, logs[i])
    {
      UseExactly(cfg, payment, logs[i]);
    }
    if (payment.chain, payment.token) in cfg.registry {
      var token := cfg.registry[(payment.chain, payment.token)];
      hide Moved;
      forall i | 0 <= i < |logs|
        ensures ShowsTransfer(cfg, payment, token, expected, logs[i]) <==>
                exists to: Address, value: nat :: Moved(cfg, payment, expected, to, value, logs[i])
      {
        TransferIsMoved(cfg, payment, expected, logs[i]);
      }
    }
  }

  lemma ReceiptJudged(
    cfg: Config, payment: AuthorizationRef, expected: SettlementExpectation, head: Height, receipt: Receipt)
    ensures var r := JudgeReceipt(cfg, payment, expected, head, receipt);
            var block := Quantity(receipt.blockNumber);
            var sound := Bytes(32, receipt.transactionHash).Some? && block.Some? && block.value <= head;
            var shown := sound && receipt.status == "0x1" && Executes(cfg, payment, expected, receipt);
            && (r == Ok(Pending) <==>
                  || (sound && receipt.status == "0x0")
                  || (shown && head + 1 < block.value + cfg.policy.confirmations))
            && (forall reference :: r == Ok(Final(reference)) <==>
                  && shown && block.value + cfg.policy.confirmations <= head + 1
                  && reference == Patterns.Lower(receipt.transactionHash))
            && (forall cause :: r != Ok(Failed(cause)))
  {
    hide ShowsUse, ShowsTransfer, Executes, Bytes, Quantity, Patterns.Lower;
    FoundExactly(cfg, payment, expected, receipt);
  }

  /** The rail says a payment is final exactly when that was shown. */
  lemma FinalExactly(cfg: Config, now: Time, evidence: Finality, expected: SettlementExpectation, reference: string)
    ensures CheckFinality(cfg, now, evidence, expected) == Ok(Final(reference)) <==>
            SettlementShown(cfg, evidence, expected, reference)
  {
    hide Parse, ForThisPayment, Executes, JudgeReceipt, Bytes, Quantity, Patterns.Lower, PrintChain, ReportsOn;
    var payment := Parse(cfg.checksummed, expected.paymentReference);
    if payment.Some? {
      match evidence
      case FacilitatorSays(response) => ReportsExactly(cfg, payment.value, expected, response);
      case ReceiptShows(_, head, receipt) => ReceiptJudged(cfg, payment.value, expected, head, receipt);
    }
  }

  /** Evidence about this payment that decides nothing yet: a report the rail does not take
      on trust, of a settlement under way or of a failure too early to act on, or a receipt
      that reverted or is not deep enough. */
  ghost predicate StillOpen(cfg: Config, now: Time, evidence: Finality, expected: SettlementExpectation) {
    var payment := Parse(cfg.checksummed, expected.paymentReference);
    && payment.Some?
    && match evidence
       case FacilitatorSays(response) =>
         && ReportsOn(cfg, payment.value, expected, response)
         && if response.success then Bytes(32, response.transaction).Some? && !cfg.policy.trustFacilitator
            else
              || Blames(response, "settlement_pending") || !cfg.policy.trustFacilitator
              || now < payment.value.validBefore + cfg.policy.expiryGrace
       case ReceiptShows(network, head, receipt) =>
         && network == PrintChain(payment.value.chain) && Bytes(32, receipt.transactionHash).Some?
         && Quantity(receipt.blockNumber).Some? && Quantity(receipt.blockNumber).value <= head
         && (|| receipt.status == "0x0"
             || (&& receipt.status == "0x1" && Executes(cfg, payment.value, expected, receipt)
                 && head + 1 < Quantity(receipt.blockNumber).value + cfg.policy.confirmations))
  }

  /** The rail says a payment is pending exactly on such evidence, and refuses all other. */
  lemma PendingExactly(cfg: Config, now: Time, evidence: Finality, expected: SettlementExpectation)
    ensures CheckFinality(cfg, now, evidence, expected) == Ok(Pending) <==> StillOpen(cfg, now, evidence, expected)
  {
    hide Parse, ForThisPayment, Executes, JudgeReceipt, Bytes, Quantity, Patterns.Lower, PrintChain, ReportsOn;
    var payment := Parse(cfg.checksummed, expected.paymentReference);
    if payment.Some? {
      match evidence
      case FacilitatorSays(response) => ReportsExactly(cfg, payment.value, expected, response);
      case ReceiptShows(_, head, receipt) => ReceiptJudged(cfg, payment.value, expected, head, receipt);
    }
  }

  // ----- what a proof means -----

  /** The requirement asks for exactly these terms: `atomic` units, worth `total`, of a token
      the rail knows, to a payee that is neither nobody nor the token itself. */
  predicate Asks(cfg: Config, r: Requirement, terms: Terms) {
    && r.scheme == "exact" && terms.chain > 0 && r.network == PrintChain(terms.chain)
    && ParseAddress(cfg.checksummed, r.asset) == Some(terms.asset)
    && (terms.chain, terms.asset) in cfg.registry && cfg.registry[(terms.chain, terms.asset)] == terms.token
    && ParseAddress(cfg.checksummed, r.payTo) == Some(terms.payTo)
    && terms.payTo != ZERO_ADDRESS && terms.payTo != terms.asset
    && r.amount == PrintNat(terms.atomic) && Worth(terms.atomic, terms.token, terms.total)
    && r.maxTimeoutSeconds > 0 && r.extra(terms.token)
  }

  lemma TermsExactly(cfg: Config, r: Requirement, terms: Terms)
    ensures TermsOf(cfg, r) == Some(terms) <==> Asks(cfg, r, terms)
  {
    hide ParseAddress, Uint, Price, PrintNat, ReadChain, PrintChain, Pow10;
    ChainExactly(r.network, terms.chain);
    UintExactly(r.amount, terms.atomic);
    PriceExactly(terms.atomic, terms.token, terms.total);
  }

  /** The wire carries exactly this authorization. */
  predicate Carries(cfg: Config, b: Body, auth: Authorization) {
    && ParseAddress(cfg.checksummed, b.from) == Some(auth.from)
    && ParseAddress(cfg.checksummed, b.to) == Some(auth.to)
    && auth.value <= U128_MAX && b.value == PrintNat(auth.value)
    && b.validAfter == PrintNat(auth.validAfter) && b.validBefore == PrintNat(auth.validBefore)
    && Bytes(32, b.nonce) == Some(auth.nonce)
  }

  lemma AuthorizationExactly(cfg: Config, b: Body, auth: Authorization)
    ensures AuthorizationOf(cfg, b) == Some(auth) <==> Carries(cfg, b, auth)
  {
    hide ParseAddress, Uint, Time64, PrintNat, Bytes;
    UintExactly(b.value, auth.value);
    UintExactly(b.validAfter, auth.validAfter);
    UintExactly(b.validBefore, auth.validBefore);
  }

  /** `proof` is an offer on these terms, taken up by an authorization of exactly them that
      its payer signed. */
  predicate SignedByPayer(cfg: Config, proof: Payload, terms: Terms, auth: Authorization) {
    && proof.x402Version == 2
    && Asks(cfg, proof.accepted, terms) && Carries(cfg, proof.authorization, auth)
    && auth.to == terms.payTo && auth.value == terms.atomic
    && var signature := Bytes(65, proof.signature);
       signature.Some? && cfg.signer(terms.chain, terms.asset, terms.token, auth, signature.value) == Some(auth.from)
  }

  lemma SignedExactly(cfg: Config, proof: Payload, terms: Terms, auth: Authorization)
    ensures Signed(cfg, proof) == Some((terms, auth)) <==> SignedByPayer(cfg, proof, terms, auth)
  {
    hide Bytes, TermsOf, AuthorizationOf, Asks, Carries;
    TermsExactly(cfg, proof.accepted, terms);
    AuthorizationExactly(cfg, proof.authorization, auth);
  }

  /** `v` is what a proof signed on these terms comes to for `expected`, if it is already on
      record or in time: at least six seconds before it expires, and not before it is valid. */
  predicate Proves(
    cfg: Config, now: Time, proof: Payload, expected: PaymentExpectation, terms: Terms, auth: Authorization,
    v: VerifiedProof)
  {
    var payment := AuthorizationRef(terms.chain, terms.asset, auth.from, auth.nonce, auth.validBefore);
    && SignedByPayer(cfg, proof, terms, auth)
    && (expected.recordedReference == Some(v.reference) || auth.validAfter <= now <= auth.validBefore - 6)
    && v.reference == Print(payment) && v.nonce == Identity(payment)
    && v.amount == terms.total
    && v.boundCtx == (if auth.nonce == cfg.binding(expected.ctx) then Some(expected.ctx) else None)
    && v.boundCart.None? && v.boundMerchant == Some(AccountId(terms.chain, terms.payTo))
  }

  lemma ProofExactly(
    cfg: Config, now: Time, proof: Payload, expected: PaymentExpectation, terms: Terms, auth: Authorization,
    v: VerifiedProof)
    requires Signed(cfg, proof) == Some((terms, auth))
    ensures VerifyProof(cfg, now, proof, expected) == Ok(v) <==>
            Proves(cfg, now, proof, expected, terms, auth, v)
  {
    hide Signed, Print, Identity, Price, AccountId, Patterns.NewMerchant, Asks, Carries;
    SignedExactly(cfg, proof, terms, auth);
    AccountIsMerchant(terms.chain, auth.to);
    PriceOfTerms(cfg, proof.accepted, terms);
  }

  lemma PriceOfTerms(cfg: Config, r: Requirement, terms: Terms)
    requires Asks(cfg, r, terms)
    ensures Price(terms.atomic, terms.token) == Some(terms.total)
  {
    hide Price, Worth;
    PriceExactly(terms.atomic, terms.token, terms.total);
  }

  /** A proof verifies, with the answer `v`, exactly when its payer signed it and it is in
      time or already on record: pricing it and naming its merchant cannot fail then. */
  lemma VerifiesExactly(cfg: Config, now: Time, proof: Payload, expected: PaymentExpectation, v: VerifiedProof)
    ensures VerifyProof(cfg, now, proof, expected) == Ok(v) <==>
            exists terms, auth :: Proves(cfg, now, proof, expected, terms, auth, v)
  {
    hide Proves;
    if VerifyProof(cfg, now, proof, expected) == Ok(v) {
      NeedsSigned(cfg, now, proof, expected);
      var (terms, auth) := Signed(cfg, proof).value;
      ProofExactly(cfg, now, proof, expected, terms, auth, v);
    }
    forall terms, auth | Proves(cfg, now, proof, expected, terms, auth, v)
      ensures VerifyProof(cfg, now, proof, expected) == Ok(v)
    {
      ProvesSigned(cfg, now, proof, expected, terms, auth, v);
      ProofExactly(cfg, now, proof, expected, terms, auth, v);
    }
  }

  lemma NeedsSigned(cfg: Config, now: Time, proof: Payload, expected: PaymentExpectation)
    ensures VerifyProof(cfg, now, proof, expected).Ok? ==> Signed(cfg, proof).Some?
  {
    hide Signed, Print, Identity, Price, AccountId, Patterns.NewMerchant;
  }

  lemma ProvesSigned(
    cfg: Config, now: Time, proof: Payload, expected: PaymentExpectation, terms: Terms, auth: Authorization,
    v: VerifiedProof)
    requires Proves(cfg, now, proof, expected, terms, auth, v)
    ensures Signed(cfg, proof) == Some((terms, auth))
  {
    hide Signed, SignedByPayer, Print, Identity, AccountId;
    SignedExactly(cfg, proof, terms, auth);
  }

  /** The payer signed away exactly this money of a token the rail knows, to this merchant,
      for this context, in time at the clock reading `now`. */
  ghost predicate PaysFor(
    cfg: Config, now: Time, proof: Payload, ctx: ContextId, amount: Money, merchant: string, reference: string,
    nonce: string)
  {
    exists terms, auth :: PaysOn(cfg, now, proof, ctx, amount, merchant, reference, nonce, terms, auth)
  }

  predicate PaysOn(
    cfg: Config, now: Time, proof: Payload, ctx: ContextId, amount: Money, merchant: string, reference: string,
    nonce: string, terms: Terms, auth: Authorization)
  {
    var payment := AuthorizationRef(terms.chain, terms.asset, auth.from, auth.nonce, auth.validBefore);
    && SignedByPayer(cfg, proof, terms, auth)
    && reference == Print(payment) && nonce == Identity(payment)
    && Worth(auth.value, terms.token, amount)
    && AccountId(terms.chain, auth.to) == merchant
    && auth.nonce == cfg.binding(ctx)
    && auth.validAfter <= now <= auth.validBefore - 6
  }

  /** A proof the engine will record: verified, unrecorded so far, and bound as it demands. */
  lemma VerifiedPays(cfg: Config, now: Time, proof: Payload, expected: PaymentExpectation)
    requires var r := VerifyProof(cfg, now, proof, expected);
             && r.Ok? && r.value.amount == expected.amount && r.value.boundCtx == Some(expected.ctx)
             && r.value.boundMerchant == Some(expected.merchant) && expected.recordedReference.None?
    ensures var v := VerifyProof(cfg, now, proof, expected).value;
            PaysFor(cfg, now, proof, expected.ctx, expected.amount, expected.merchant, v.reference, v.nonce)
  {
    hide VerifyProof, Print, Identity, AccountId, Carries, ParseAddress, Worth;
    var v := VerifyProof(cfg, now, proof, expected).value;
    VerifiesExactly(cfg, now, proof, expected, v);
    var terms, auth :| Proves(cfg, now, proof, expected, terms, auth, v);
    assert PaysOn(cfg, now, proof, expected.ctx, expected.amount, expected.merchant, v.reference, v.nonce, terms, auth);
  }

  /** Time decides only new payments: a proof accepted once is accepted again, with the same
      answer, at any clock reading, by whoever has its reference on record for the context. */
  lemma AcceptedForGood(
    cfg: Config, now: Time, proof: Payload, expected: PaymentExpectation, later: Time, again: PaymentExpectation)
    requires VerifyProof(cfg, now, proof, expected).Ok?
    requires again.ctx == expected.ctx
    requires again.recordedReference == Some(VerifyProof(cfg, now, proof, expected).value.reference)
    ensures VerifyProof(cfg, later, proof, again) == VerifyProof(cfg, now, proof, expected)
  {
    hide Signed, Print, Identity, Price, AccountId, Patterns.NewMerchant;
  }
}
