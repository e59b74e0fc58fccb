/** Numbers, bytes, addresses and chains as the x402 adapter writes and reads them
    (ml-adapters: x402/fields, x402/types). */
module X402Text {
  import opened Prelude

  type Byte = b: int | 0 <= b < 256 witness 0

  const U64_MAX: int := 0xffff_ffff_ffff_ffff

  type U64 = n: nat | n <= U64_MAX witness 0

  /** Twenty bytes. */
  type Address = a: seq<Byte> | |a| == 20 witness seq(20, _ => 0)

  /** Thirty-two bytes. */
  type Word = w: seq<Byte> | |w| == 32 witness seq(32, _ => 0)

  // ----- decimal numbers -----

  predicate IsDigit(c: char) {
    '0' <= c <= '9'
  }

  predicate AllDigits(s: string) {
    forall i :: 0 <= i < |s| ==> IsDigit(s[i])
  }

  function DigitValue(c: char): nat
    requires IsDigit(c)
  {
    c as int - '0' as int
  }

  function DigitOf(n: nat): char
    requires n < 10
  {
    (n + '0' as int) as char
  }

  /** `Display` for an unsigned integer. */
  function PrintNat(n: nat): string {
    if n < 10 then [DigitOf(n)] else PrintNat(n / 10) + [DigitOf(n % 10)]
  }

  function DigitsValue(s: string): nat
    requires AllDigits(s)
  {
    if s == "" then 0 else 10 * DigitsValue(DropLast(s)) + DigitValue(Last(s))
  }

  /** The one spelling of a number: digits, and no leading zero but in `0` itself. */
  predicate Canonical(s: string) {
    s != "" && AllDigits(s) && (s == "0" || s[0] != '0')
  }

  lemma {:induction false} PrintedNat(n: nat)
    ensures Canonical(PrintNat(n)) && DigitsValue(PrintNat(n)) == n
    ensures n > 0 ==> PrintNat(n)[0] != '0'
  {
    if n >= 10 {
      PrintedNat(n / 10);
      SnocParts(PrintNat(n / 10), DigitOf(n % 10));
    }
  }

  lemma {:induction false} CanonicalPositive(s: string)
    requires s != "" && AllDigits(s) && s[0] != '0'
    ensures DigitsValue(s) > 0
  {
    if |s| > 1 {
      CanonicalPositive(DropLast(s));
    }
  }

  /** Reading a canonical number and printing it gives the same characters back. */
  lemma {:induction false} CanonicalPrinted(s: string)
    requires Canonical(s)
    ensures PrintNat(DigitsValue(s)) == s
  {
    if |s| == 1 {
      assert DropLast(s) == "";
    } else {
      var front := DropLast(s);
      CanonicalPositive(front);
      CanonicalPrinted(front);
      assert s == front + [Last(s)];
    }
  }

  /** `str::parse::<u64>`: digits, with an optional plus sign, within range. */
  function ParseU64(s: string): Option<U64> {
    var digits := if s != "" && s[0] == '+' then s[1..] else s;
    if digits == "" || !AllDigits(digits) || DigitsValue(digits) > U64_MAX then None
    else Some(DigitsValue(digits))
  }

  lemma PrintedParsesU64(n: U64)
    ensures ParseU64(PrintNat(n)) == Some(n)
  {
    PrintedNat(n);
  }

  // ----- hexadecimal bytes -----

  function HexValue(c: char): Option<nat> {
    if IsDigit(c) then Some(c as int - '0' as int)
    else if 'a' <= c <= 'f' then Some(c as int - 'a' as int + 10)
    else if 'A' <= c <= 'F' then Some(c as int - 'A' as int + 10)
    else None
  }

  function HexDigit(n: nat): char
    requires n < 16
  {
    if n < 10 then (n + '0' as int) as char else (n - 10 + 'a' as int) as char
  }

  /** `hex::encode`: two lower-case digits a byte. */
  function HexOf(bytes: seq<Byte>): string {
    if bytes == [] then "" else HexOf(DropLast(bytes)) + ByteDigits(Last(bytes))
  }

  function ByteDigits(b: Byte): string {
    [HexDigit(b / 16), HexDigit(b % 16)]
  }

  /** The byte two hex digits write, if they are hex digits. */
  function Pair(high: char, low: char): Option<Byte> {
    var h, l := HexValue(high), HexValue(low);
    if h.None? || l.None? then None
    else Some(PairValue(h.value, l.value))
  }

  function PairValue(h: nat, l: nat): (b: Byte)
    ensures h < 16 && l < 16 ==> b == 16 * h + l
  {
    if h < 16 && l < 16 then 16 * h + l else 0
  }

  /** What `hex::decode_to_slice` reads from a string of even length. */
  function Decode(s: string): Option<seq<Byte>> {
    if s == "" then Some([])
    else if |s| == 1 then None
    else
      var front, last := Decode(s[..|s| - 2]), Pair(s[|s| - 2], s[|s| - 1]);
      if front.None? || last.None? then None else Some(front.value + [last.value])
  }

  lemma HexDigitValue(n: nat)
    requires n < 16
    ensures HexValue(HexDigit(n)) == Some(n)
  {
  }

  lemma ByteRead(b: Byte)
    ensures |ByteDigits(b)| == 2 && Pair(ByteDigits(b)[0], ByteDigits(b)[1]) == Some(b)
  {
    HexDigitValue(b / 16);
    HexDigitValue(b % 16);
  }

  lemma DecodeSnoc(s: string, pair: string)
    requires |pair| == 2
    ensures Decode(s + pair) ==
            if Decode(s).None? || Pair(pair[0], pair[1]).None? then None
            else Some(Decode(s).value + [Pair(pair[0], pair[1]).value])
  {
    hide Pair;
    var t := s + pair;
    assert t[..|t| - 2] == s;
  }

  lemma HexParts(bytes: seq<Byte>)
    ensures bytes == [] ==> HexOf(bytes) == "" && Decode(HexOf(bytes)) == Some([])
    ensures bytes != [] ==> HexOf(bytes) == HexOf(DropLast(bytes)) + ByteDigits(Last(bytes))
  {
  }

  lemma {:induction false} DecodeHex(bytes: seq<Byte>)
    ensures Decode(HexOf(bytes)) == Some(bytes)
  {
    hide Pair, ByteDigits, Decode, HexOf;
    HexParts(bytes);
    if bytes != [] {
      DecodeHex(DropLast(bytes));
      ByteRead(Last(bytes));
      DecodeSnoc(HexOf(DropLast(bytes)), ByteDigits(Last(bytes)));
      assert bytes == DropLast(bytes) + [Last(bytes)];
    }
  }

  lemma {:induction false} DecodeLength(s: string)
    ensures Decode(s).Some? ==> |s| == 2 * |Decode(s).value|
  {
    if |s| > 1 {
      DecodeLength(s[..|s| - 2]);
    }
  }

  const HEX_PREFIX: string := "0x"

  /** `fields::bytes`: `0x` and exactly `2 * n` hex digits. */
  function Bytes(n: nat, s: string): (r: Option<seq<Byte>>)
    ensures r.Some? ==> |r.value| == n
  {
    if !(HEX_PREFIX <= s) || |s| != 2 + 2 * n then None
    else
      DecodeLength(s[2..]);
      Decode(s[2..])
  }

  /** The digits decoded in place, into a buffer of `n` bytes. */
  method ReadBytes(n: nat, s: string) returns (r: Option<seq<Byte>>)
    ensures r == Bytes(n, s)
  {
    if !(HEX_PREFIX <= s) || |s| != 2 + 2 * n {
      return None;
    }
    var hex := s[2..];
    var out := new Byte[n];
    for i := 0 to n
      invariant Decode(hex[..2 * i]) == Some(out[..i])
    {
      var pair := Pair(hex[2 * i], hex[2 * i + 1]);
      DecodeNext(hex, i);
      if pair.None? {
        NoneOnward(hex, 2 * i + 2);
        return None;
      }
      out[i] := pair.value;
      assert out[..i + 1] == out[..i] + [pair.value];
    }
    assert hex[..2 * n] == hex && out[..n] == out[..];
    return Some(out[..]);
  }

  lemma DecodeNext(s: string, i: nat)
    requires 2 * i + 2 <= |s|
    ensures var front, pair := Decode(s[..2 * i]), Pair(s[2 * i], s[2 * i + 1]);
            Decode(s[..2 * i + 2]) ==
            if front.None? || pair.None? then None else Some(front.value + [pair.value])
  {
    var t := s[..2 * i + 2];
    assert t[..|t| - 2] == s[..2 * i];
  }

  lemma {:induction false} NoneOnward(s: string, n: nat)
    requires n <= |s| && (|s| - n) % 2 == 0 && Decode(s[..n]).None?
    ensures Decode(s).None?
    decreases |s| - n
  {
    if n == |s| {
      assert s[..n] == s;
    } else {
      assert s[..n + 2][..n] == s[..n];
      NoneOnward(s, n + 2);
    }
  }

  function PrintBytes(bytes: seq<Byte>): string {
    HEX_PREFIX + HexOf(bytes)
  }

  /** Reading what was printed. */
  lemma PrintedBytes(bytes: seq<Byte>)
    ensures Bytes(|bytes|, PrintBytes(bytes)) == Some(bytes)
  {
    DecodeHex(bytes);
    DecodeLength(HexOf(bytes));
    assert PrintBytes(bytes)[2..] == HexOf(bytes);
  }

  /** `c` is the lower-case hex digit `d`, in either case. */
  predicate DigitSpells(c: char, d: char) {
    c == d || ('A' <= c <= 'F' && c as int + 32 == d as int)
  }

  /** `s` writes `hex`, lower-case digits, in any mixture of cases. */
  predicate Spells(s: string, hex: string) {
    |s| == |hex| && forall i :: 0 <= i < |s| ==> DigitSpells(s[i], hex[i])
  }

  lemma HexValueExactly(c: char, n: nat)
    ensures HexValue(c) == Some(n) <==> n < 16 && DigitSpells(c, HexDigit(n))
  {
  }

  lemma PairExactly(high: char, low: char, b: Byte)
    ensures Pair(high, low) == Some(b) <==>
            DigitSpells(high, HexDigit(b / 16)) && DigitSpells(low, HexDigit(b % 16))
  {
    hide HexDigit, DigitSpells, HexValue;
    HexValueExactly(high, b / 16);
    HexValueExactly(low, b % 16);
    var h, l := HexValue(high), HexValue(low);
    if h.Some? && l.Some? {
      HexValueExactly(high, h.value);
      HexValueExactly(low, l.value);
    }
  }

  lemma SpellsSnoc(s: string, high: char, low: char, hex: string, h: char, l: char)
    ensures Spells(s + [high, low], hex + [h, l]) <==>
            Spells(s, hex) && DigitSpells(high, h) && DigitSpells(low, l)
  {
    hide DigitSpells;
    var t, d := s + [high, low], hex + [h, l];
    if |s| == |hex| {
      forall i | 0 <= i < |t|
        ensures t[i] == (if i < |s| then s[i] else if i == |s| then high else low)
        ensures d[i] == (if i < |s| then hex[i] else if i == |s| then h else l)
      {
      }
      if Spells(t, d) {
        assert DigitSpells(t[|s|], d[|s|]) && DigitSpells(t[|s| + 1], d[|s| + 1]);
        forall i | 0 <= i < |s|
          ensures DigitSpells(s[i], hex[i])
        {
          assert DigitSpells(t[i], d[i]);
        }
      }
    }
  }

  lemma {:induction false} HexLength(bytes: seq<Byte>)
    ensures |HexOf(bytes)| == 2 * |bytes|
  {
    if bytes != [] {
      HexLength(DropLast(bytes));
    }
  }

  /** A string decodes to exactly the bytes it spells. */
  lemma {:induction false} DecodeExactly(s: string, bytes: seq<Byte>)
    ensures Decode(s) == Some(bytes) <==> Spells(s, HexOf(bytes))
    decreases |s|
  {
    hide Pair, Spells, DigitSpells, HexDigit, Decode;
    HexLength(bytes);
    DecodeLength(s);
    SpelledLength(s, HexOf(bytes));
    if |s| == 2 * |bytes| {
      if s == "" {
        NothingSpelled();
      } else {
        var front, last := DropLast(bytes), Last(bytes);
        var high, low := s[|s| - 2], s[|s| - 1];
        assert s == s[..|s| - 2] + [high, low] && bytes == front + [last];
        DecodeExactly(s[..|s| - 2], front);
        DecodeSnoc(s[..|s| - 2], [high, low]);
        PairExactly(high, low, last);
        SpellsSnoc(s[..|s| - 2], high, low, HexOf(front), HexDigit(last / 16), HexDigit(last % 16));
      }
    }
  }

  lemma SpelledLength(s: string, hex: string)
    ensures Spells(s, hex) ==> |s| == |hex|
  {
  }

  lemma NothingSpelled()
    ensures Decode("") == Some([]) && Spells("", HexOf([]))
  {
  }

  /** `n` bytes are read from exactly the strings that spell them after `0x`. */
  lemma BytesExactly(n: nat, s: string, bytes: seq<Byte>)
    ensures Bytes(n, s) == Some(bytes) <==>
            |bytes| == n && HEX_PREFIX <= s && Spells(s[2..], HexOf(bytes))
  {
    hide Spells, Decode;
    HexLength(bytes);
    if HEX_PREFIX <= s {
      DecodeExactly(s[2..], bytes);
      SpelledLength(s[2..], HexOf(bytes));
    }
  }

  // ----- addresses and chains -----

  predicate AnyLower(s: string) {
    exists i :: 0 <= i < |s| && 'a' <= s[i] <= 'z'
  }

  predicate AnyUpper(s: string) {
    exists i :: 0 <= i < |s| && 'A' <= s[i] <= 'Z'
  }

  /** `Address::parse`. `checksummed` is the EIP-55 check on the forty digits. */
  function ParseAddress(checksummed: string -> bool, s: string): Option<Address> {
    var bytes := Bytes(20, s);
    if bytes.None? then None
    else if AnyLower(s[2..]) && AnyUpper(s[2..]) && !checksummed(s[2..]) then None
    else Some(bytes.value)
  }

  lemma HexDigitCase(n: nat)
    requires n < 16
    ensures !('A' <= HexDigit(n) <= 'Z') && HexDigit(n) != ':'
  {
  }

  lemma {:induction false} HexIsLower(bytes: seq<Byte>)
    ensures !AnyUpper(HexOf(bytes)) && ':' !in HexOf(bytes)
  {
    if bytes != [] {
      HexIsLower(DropLast(bytes));
      HexDigitCase(Last(bytes) / 16);
      HexDigitCase(Last(bytes) % 16);
    }
  }

  /** An address is printed in lower case, so its spelling needs no checksum. */
  lemma PrintedAddress(checksummed: string -> bool, a: Address)
    ensures ParseAddress(checksummed, PrintBytes(a)) == Some(a)
  {
    PrintedBytes(a);
    HexIsLower(a);
    assert PrintBytes(a)[2..] == HexOf(a);
  }

  /** An address is read from exactly the strings that spell it in one case, or in both and
      with its checksum. */
  lemma AddressExactly(checksummed: string -> bool, s: string, a: Address)
    ensures ParseAddress(checksummed, s) == Some(a) <==>
            && HEX_PREFIX <= s && Spells(s[2..], HexOf(a))
            && (AnyLower(s[2..]) && AnyUpper(s[2..]) ==> checksummed(s[2..]))
  {
    hide Spells, Bytes, AnyLower, AnyUpper;
    BytesExactly(20, s, a);
  }

  const EIP155: string := "eip155"

  /** `ChainId::from_str`, on what follows `eip155:`. */
  function ParseChain(id: string): Option<U64> {
    if id == "" || !AllDigits(id) || id[0] == '0' then None else ParseU64(id)
  }

  /** A chain is read back unless it is chain 0, which is printed but not accepted. */
  lemma PrintedChain(chain: U64)
    ensures ParseChain(PrintNat(chain)) == if chain > 0 then Some(chain) else None
  {
    PrintedNat(chain);
    PrintedParsesU64(chain);
  }

  function PrintChain(chain: U64): string {
    EIP155 + ":" + PrintNat(chain)
  }

  /** `ChainId::from_str`. */
  function ReadChain(s: string): Option<U64> {
    if EIP155 + ":" <= s then ParseChain(s[7..]) else None
  }

  /** One spelling a chain: the printed one, of any chain but 0. */
  lemma ChainExactly(s: string, chain: U64)
    ensures ReadChain(s) == Some(chain) <==> chain > 0 && s == PrintChain(chain)
  {
    hide DigitsValue, PrintNat;
    PrintedChain(chain);
    if s == PrintChain(chain) {
      assert s[7..] == PrintNat(chain);
    }
    if ReadChain(s) == Some(chain) {
      var id := s[7..];
      CanonicalPrinted(id);
      CanonicalPositive(id);
      assert s == EIP155 + ":" + id;
    }
  }

  /** `account_id`: an account on a chain, which is the x402 merchant. */
  function AccountId(chain: U64, address: Address): string {
    PrintChain(chain) + ":" + PrintBytes(address)
  }
}
