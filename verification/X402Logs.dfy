/** What the rail reads in a receipt, on decoded bytes: block numbers, and the two events an
    EIP-3009 token emits when it executes an authorization (ml-adapters: x402/finality). */
module X402Logs {
  import opened Prelude
  import opened X402Text
  import opened X402Reference
  import opened X402Rail

  // ----- words -----

  /** `n` in `size` bytes, the most significant first. */
  function ToBytes(n: nat, size: nat): (bytes: seq<Byte>)
    ensures |bytes| == size
  {
    if size == 0 then [] else ToBytes(n / 256, size - 1) + [n % 256]
  }

  function Pow256(size: nat): (p: nat)
    ensures p > 0
  {
    if size == 0 then 1 else 256 * Pow256(size - 1)
  }

  lemma {:induction false} BytesRead(n: nat, size: nat)
    requires n < Pow256(size)
    ensures BigEndian(ToBytes(n, size)) == n
  {
    if size > 0 {
      BytesRead(n / 256, size - 1);
      SnocParts(ToBytes(n / 256, size - 1), n % 256);
    }
  }

  lemma {:induction false} ReadBack(bytes: seq<Byte>)
    ensures BigEndian(bytes) < Pow256(|bytes|) && ToBytes(BigEndian(bytes), |bytes|) == bytes
  {
    if bytes != [] {
      var front, last := DropLast(bytes), Last(bytes);
      ReadBack(front);
      assert BigEndian(bytes) / 256 == BigEndian(front) && BigEndian(bytes) % 256 == last;
      assert bytes == front + [last];
    }
  }

  lemma Pow256At16()
    ensures Pow256(16) == U128_MAX + 1
  {
    assert Pow256(4) == 0x1_0000_0000;
    assert Pow256(8) == 0x1_0000_0000_0000_0000;
    assert Pow256(12) == 0x1_0000_0000_0000_0000_0000_0000;
  }

  function Zeros(n: nat): (bytes: seq<Byte>)
    ensures |bytes| == n && AllZero(bytes)
  {
    if n == 0 then [] else Zeros(n - 1) + [0]
  }

  /** An address as an indexed argument: twelve zero bytes, then the address. */
  function Topic(a: Address): Word {
    Zeros(12) + a
  }

  /** An amount as an ABI word: sixteen zero bytes, then the amount. */
  function Amount128(value: nat): Word {
    Zeros(16) + ToBytes(value, 16)
  }

  lemma TopicExactly(topic: string, a: Address)
    ensures TopicAddress(topic) == Some(a) <==> Bytes(32, topic) == Some(Topic(a))
  {
    hide Bytes, Zeros;
    var word := Bytes(32, topic);
    if word.Some? {
      assert Topic(a)[..12] == Zeros(12) && Topic(a)[12..] == a;
      if AllZero(word.value[..12]) {
        assert word.value[..12] == Zeros(12);
        assert word.value == word.value[..12] + word.value[12..];
      }
    }
  }

  lemma AmountExactly(data: string, value: nat)
    ensures var word := Bytes(32, data);
            word.Some? && AllZero(word.value[..16]) && BigEndian(word.value[16..]) == value <==>
            value <= U128_MAX && word == Some(Amount128(value))
  {
    hide Bytes, Zeros, ToBytes, BigEndian;
    Pow256At16();
    var word := Bytes(32, data);
    if value <= U128_MAX {
      BytesRead(value, 16);
      assert Amount128(value)[..16] == Zeros(16) && Amount128(value)[16..] == ToBytes(value, 16);
    }
    if word.Some? && AllZero(word.value[..16]) {
      ReadBack(word.value[16..]);
      assert word.value[..16] == Zeros(16);
      assert word.value == word.value[..16] + word.value[16..];
    }
  }

  // ----- events -----

  /** `log` is the token's record that this very authorization was executed. */
  predicate UseLogged(cfg: Config, payment: AuthorizationRef, log: Log) {
    && ParseAddress(cfg.checksummed, log.address) == Some(payment.token)
    && |log.topics| == 3
    && Bytes(32, log.topics[0]) == Some(cfg.used)
    && Bytes(32, log.topics[1]) == Some(Topic(payment.from))
    && Bytes(32, log.topics[2]) == Some(payment.nonce)
  }

  /** `log` is the token's record that `value` of its units went from `from` to `to`. */
  predicate TransferLogged(cfg: Config, token: Address, from: Address, to: Address, value: nat, log: Log) {
    && ParseAddress(cfg.checksummed, log.address) == Some(token)
    && |log.topics| == 3
    && Bytes(32, log.topics[0]) == Some(cfg.moved)
    && Bytes(32, log.topics[1]) == Some(Topic(from))
    && Bytes(32, log.topics[2]) == Some(Topic(to))
    && value <= U128_MAX && Bytes(32, log.data) == Some(Amount128(value))
  }

  /** The rail sees an authorization used exactly in the token's own record of it: the right
      words from another contract, or any other word from the token, show nothing. */
  lemma UseExactly(cfg: Config, payment: AuthorizationRef, log: Log)
    ensures ShowsUse(cfg, payment, log) <==> UseLogged(cfg, payment, log)
  {
    hide Bytes, ParseAddress, TopicAddress, Topic;
    if |log.topics| == 3 {
      TopicExactly(log.topics[1], payment.from);
    }
  }

  /** And a transfer exactly in the token's own record of it. */
  lemma TransferExactly(cfg: Config, token: Address, from: Address, to: Address, value: nat, log: Log)
    ensures MovedBy(cfg, log, token) == Some((from, to, value)) <==>
            TransferLogged(cfg, token, from, to, value, log)
  {
    hide Bytes, ParseAddress, TopicAddress, Topic, AllZero, BigEndian, Amount128;
    if |log.topics| == 3 {
      TopicExactly(log.topics[1], from);
      TopicExactly(log.topics[2], to);
      AmountExactly(log.data, value);
    }
  }

  // ----- block numbers -----

  function Pow16(size: nat): (p: nat)
    ensures p > 0
  {
    if size == 0 then 1 else 16 * Pow16(size - 1)
  }

  /** `n` in `size` hex digits, leading zeros included. */
  function HexDigits(n: nat, size: nat): (s: string)
    ensures |s| == size
  {
    if size == 0 then "" else HexDigits(n / 16, size - 1) + [HexDigit(n % 16)]
  }

  lemma {:induction false} HexNumberExactly(s: string, n: nat)
    ensures AllHex(s) && HexNumber(s) == n <==> n < Pow16(|s|) && Spells(s, HexDigits(n, |s|))
  {
    hide HexValue, HexDigit, DigitSpells;
    if s != "" {
      var front := DropLast(s);
      HexNumberExactly(front, n / 16);
      HexValueExactly(Last(s), n % 16);
      HexParts(s);
      SpellsLast(s, HexDigits(n / 16, |s| - 1), HexDigit(n % 16));
      if AllHex(s) {
        HexValueExactly(Last(s), HexValue(Last(s)).value);
      }
    }
  }

  lemma HexParts(s: string)
    requires s != ""
    ensures AllHex(s) <==> AllHex(DropLast(s)) && HexValue(Last(s)).Some?
  {
    assert s == DropLast(s) + [Last(s)];
  }

  lemma SpellsLast(s: string, hex: string, d: char)
    requires s != "" && |s| == |hex| + 1
    ensures Spells(s, hex + [d]) <==> Spells(DropLast(s), hex) && DigitSpells(Last(s), d)
  {
    hide DigitSpells;
    var all := hex + [d];
    if Spells(s, all) {
      assert DigitSpells(s[|hex|], all[|hex|]);
      forall i | 0 <= i < |hex|
        ensures DigitSpells(DropLast(s)[i], hex[i])
      {
        assert DigitSpells(s[i], all[i]);
      }
    }
  }

  /** The digits of a quantity: what follows `0x`, and the plus sign if there is one. */
  function QuantityDigits(s: string): string
    requires |s| > 2
  {
    if s[2] == '+' then s[3..] else s[2..]
  }

  /** A quantity is read from exactly the strings of up to sixteen characters after `0x`
      that write it in hex, in any case, with leading zeros or a plus sign or without. */
  lemma QuantityExactly(s: string, n: nat)
    ensures Quantity(s) == Some(n) <==>
            && HEX_PREFIX <= s && 2 < |s| <= 18 && QuantityDigits(s) != ""
            && n < Pow16(|QuantityDigits(s)|) && Spells(QuantityDigits(s), HexDigits(n, |QuantityDigits(s)|))
  {
    hide AllHex, HexNumber, Spells, HexDigits, Pow16;
    if |s| > 2 {
      HexNumberExactly(QuantityDigits(s), n);
    }
  }
}
