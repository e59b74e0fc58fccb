/** The logs an EIP-3009 token emits when it executes an authorization, read back by the rail:
    the receipt of a payment settles it. */
module X402Receipts {
  import opened Prelude
  import opened Domain
  import Patterns
  import opened Rails
  import opened X402Text
  import opened X402Reference
  import opened X402Rail
  import opened X402Logs
  import opened X402Claims

  /** `AuthorizationUsed(from, nonce)`, as the token emits it. */
  function UseLog(cfg: Config, p: AuthorizationRef): Log {
    Log(PrintBytes(p.token), [PrintBytes(cfg.used), PrintBytes(Topic(p.from)), PrintBytes(p.nonce)], "0x")
  }

  /** `Transfer(from, to, value)`, as the token emits it. */
  function TransferLog(cfg: Config, p: AuthorizationRef, to: Address, value: nat): Log {
    Log(PrintBytes(p.token), [PrintBytes(cfg.moved), PrintBytes(Topic(p.from)), PrintBytes(Topic(to))],
        PrintBytes(Amount128(value)))
  }

  lemma UseLogRead(cfg: Config, p: AuthorizationRef)
    ensures UseLogged(cfg, p, UseLog(cfg, p))
  {
    hide PrintBytes, Bytes, ParseAddress, Topic;
    PrintedAddress(cfg.checksummed, p.token);
    PrintedBytes(cfg.used);
    PrintedBytes(p.nonce);
    PrintedBytes(Topic(p.from));
  }

  lemma TransferLogRead(cfg: Config, p: AuthorizationRef, to: Address, value: nat)
    requires value <= U128_MAX
    ensures TransferLogged(cfg, p.token, p.from, to, value, TransferLog(cfg, p, to, value))
  {
    hide PrintBytes, Bytes, ParseAddress, Topic, Amount128;
    PrintedAddress(cfg.checksummed, p.token);
    PrintedBytes(cfg.moved);
    PrintedBytes(Topic(p.from));
    PrintedBytes(Topic(to));
    PrintedBytes(Amount128(value));
  }

  /** The receipt of a payment's own execution settles it, once deep enough: whatever else
      the transaction logged, in whatever order. */
  lemma ExecutionSettles(
    cfg: Config, now: Time, p: AuthorizationRef, to: Address, value: nat, expected: SettlementExpectation,
    head: Height, receipt: Receipt)
    requires p.chain > 0 && expected.paymentReference == Print(p)
    requires (p.chain, p.token) in cfg.registry && value <= U128_MAX
    requires Worth(value, cfg.registry[(p.chain, p.token)], expected.amount)
    requires AccountId(p.chain, to) == expected.merchant
    requires Bytes(32, receipt.transactionHash).Some? && receipt.status == "0x1" && Quantity(receipt.blockNumber).Some?
    requires Quantity(receipt.blockNumber).value + cfg.policy.confirmations <= head + 1
    requires UseLog(cfg, p) in receipt.logs && TransferLog(cfg, p, to, value) in receipt.logs
    ensures CheckFinality(cfg, now, ReceiptShows(PrintChain(p.chain), head, receipt), expected)
              == Ok(Final(Patterns.Lower(receipt.transactionHash)))
  {
    hide Parse, Print, Worth, Bytes, Quantity, Patterns.Lower, UseLogged, TransferLogged, PrintChain, UseLog,
      TransferLog, AccountId, CheckFinality;
    PrintedParses(cfg.checksummed, p);
    var i :| 0 <= i < |receipt.logs| && receipt.logs[i] == UseLog(cfg, p);
    UseLogRead(cfg, p);
    assert UseLogged(cfg, p, receipt.logs[i]);
    var j :| 0 <= j < |receipt.logs| && receipt.logs[j] == TransferLog(cfg, p, to, value);
    TransferLogRead(cfg, p, to, value);
    assert Moved(cfg, p, expected, to, value, receipt.logs[j]);
    var evidence := ReceiptShows(PrintChain(p.chain), head, receipt);
    assert ReceiptSettles(cfg, p, expected, evidence);
    FinalExactly(cfg, now, evidence, expected, Patterns.Lower(receipt.transactionHash));
  }
}
