/** The x402 payment reference: one spelling per payment, and one identity per
    authorization the chain can execute (ml-adapters: x402/rail). */
module X402Reference {
  import opened Prelude
  import opened X402Text

  // ----- colon-separated parts -----

  /** `str::split(':')`. */
  function Split(s: string): (parts: seq<string>)
    ensures parts != []
  {
    if s == "" then [""]
    else
      var front := Split(DropLast(s));
      if Last(s) == ':' then front + [""] else DropLast(front) + [Last(front) + [Last(s)]]
  }

  lemma {:induction false} SplitPlain(s: string)
    requires ':' !in s
    ensures Split(s) == [s]
  {
    if s != "" {
      SplitPlain(DropLast(s));
      assert s == DropLast(s) + [Last(s)];
      assert DropLast([DropLast(s)]) == [];
    }
  }

  lemma {:induction false} SplitSnoc(s: string, part: string)
    requires ':' !in part
    ensures Split(s + ":" + part) == Split(s) + [part]
    decreases |part|
  {
    var all := s + ":" + part;
    if part == "" {
      assert all == s + ":";
      assert DropLast(all) == s;
    } else {
      assert DropLast(all) == s + ":" + DropLast(part) && Last(all) == Last(part);
      SplitSnoc(s, DropLast(part));
      SnocParts(Split(s), DropLast(part));
      assert part == DropLast(part) + [Last(part)];
    }
  }

  // ----- references -----

  /** `AuthorizationRef`: one EIP-3009 authorization, and when it expires. */
  datatype AuthorizationRef = AuthorizationRef(
    chain: U64, token: Address, from: Address, nonce: Word, validBefore: U64)

  /** `AuthorizationRef::identity`. */
  function Identity(p: AuthorizationRef): string {
    PrintChain(p.chain) + ":" + PrintBytes(p.token) + ":" + PrintBytes(p.from) + ":" + PrintBytes(p.nonce)
  }

  /** `Display` for `AuthorizationRef`. */
  function Print(p: AuthorizationRef): string {
    Identity(p) + ":" + PrintNat(p.validBefore)
  }

  /** `FromStr` for `AuthorizationRef`, its last check included. */
  function Parse(checksummed: string -> bool, s: string): Option<AuthorizationRef> {
    var parts := Split(s);
    if |parts| != 6 || parts[0] != EIP155 then None
    else
      var chain := ParseChain(parts[1]);
      var token, from := ParseAddress(checksummed, parts[2]), ParseAddress(checksummed, parts[3]);
      var nonce, validBefore := Bytes(32, parts[4]), ParseU64(parts[5]);
      if chain.None? || token.None? || from.None? || nonce.None? || validBefore.None? then None
      else
        var p := AuthorizationRef(chain.value, token.value, from.value, nonce.value, validBefore.value);
        if Print(p) != s then None else Some(p)
  }

  lemma {:induction false} NatHasNoColon(n: nat)
    ensures ':' !in PrintNat(n)
  {
    PrintedNat(n);
  }

  lemma BytesHaveNoColon(bytes: seq<Byte>)
    ensures ':' !in PrintBytes(bytes)
  {
    HexIsLower(bytes);
  }

  lemma SplitChain(chain: U64)
    ensures Split(PrintChain(chain)) == [EIP155, PrintNat(chain)]
  {
    hide Split;
    SplitPlain(EIP155);
    NatHasNoColon(chain);
    SplitSnoc(EIP155, PrintNat(chain));
  }

  lemma SplitIdentity(p: AuthorizationRef)
    ensures Split(Identity(p)) ==
            [EIP155, PrintNat(p.chain), PrintBytes(p.token), PrintBytes(p.from), PrintBytes(p.nonce)]
  {
    hide Split, PrintBytes, PrintNat, PrintChain;
    SplitChain(p.chain);
    BytesHaveNoColon(p.token);
    BytesHaveNoColon(p.from);
    BytesHaveNoColon(p.nonce);
    var a := PrintChain(p.chain);
    var b := a + ":" + PrintBytes(p.token);
    var c := b + ":" + PrintBytes(p.from);
    SplitSnoc(a, PrintBytes(p.token));
    SplitSnoc(b, PrintBytes(p.from));
    SplitSnoc(c, PrintBytes(p.nonce));
  }

  lemma SplitPrint(p: AuthorizationRef)
    ensures Split(Print(p)) ==
            [EIP155, PrintNat(p.chain), PrintBytes(p.token), PrintBytes(p.from), PrintBytes(p.nonce),
             PrintNat(p.validBefore)]
  {
    hide Split, Identity;
    SplitIdentity(p);
    NatHasNoColon(p.validBefore);
    SplitSnoc(Identity(p), PrintNat(p.validBefore));
  }

  /** A printed reference is read back, exactly when its chain is not 0. */
  lemma PrintedParses(checksummed: string -> bool, p: AuthorizationRef)
    ensures Parse(checksummed, Print(p)) == if p.chain > 0 then Some(p) else None
  {
    hide Split, Print, PrintBytes, PrintNat, ParseChain, ParseAddress, Bytes, ParseU64;
    SplitPrint(p);
    PrintedChain(p.chain);
    PrintedAddress(checksummed, p.token);
    PrintedAddress(checksummed, p.from);
    PrintedBytes(p.nonce);
    PrintedParsesU64(p.validBefore);
  }

  lemma ChainPositive(id: string)
    requires ParseChain(id).Some?
    ensures ParseChain(id).value > 0
  {
    CanonicalPositive(id);
  }

  /** What is accepted is exactly what is printed: a string is a reference if and only if it
      is the print of one on a chain other than 0, whatever the checksum rule says. */
  lemma AcceptsExactlyPrints(checksummed: string -> bool, s: string)
    ensures Parse(checksummed, s).Some? <==> exists p: AuthorizationRef :: p.chain > 0 && Print(p) == s
    ensures forall p: AuthorizationRef :: Parse(checksummed, s) == Some(p) ==> Print(p) == s
  {
    hide Split, Print, ParseAddress, Bytes, ParseU64, ParseChain;
    if Parse(checksummed, s).Some? {
      ChainPositive(Split(s)[1]);
    }
    forall p: AuthorizationRef | p.chain > 0 && Print(p) == s
      ensures Parse(checksummed, s).Some?
    {
      hide Parse;
      PrintedParses(checksummed, p);
    }
  }

  lemma BytesTold(a: seq<Byte>, b: seq<Byte>)
    requires PrintBytes(a) == PrintBytes(b)
    ensures a == b
  {
    hide HexOf;
    assert PrintBytes(a)[2..] == HexOf(a) && PrintBytes(b)[2..] == HexOf(b);
    DecodeHex(a);
    DecodeHex(b);
  }

  lemma NatTold(a: nat, b: nat)
    requires PrintNat(a) == PrintNat(b)
    ensures a == b
  {
    PrintedNat(a);
    PrintedNat(b);
  }

  /** Two authorizations with one identity are the same authorization on chain: what a
      payment consumes once is what the chain executes once. */
  lemma IdentityTells(p: AuthorizationRef, q: AuthorizationRef)
    requires Identity(p) == Identity(q)
    ensures p.chain == q.chain && p.token == q.token && p.from == q.from && p.nonce == q.nonce
  {
    hide Split, Identity, PrintBytes, PrintNat;
    SplitIdentity(p);
    SplitIdentity(q);
    var a, b := Split(Identity(p)), Split(Identity(q));
    assert a[1] == b[1] && a[2] == b[2] && a[3] == b[3] && a[4] == b[4];
    NatTold(p.chain, q.chain);
    BytesTold(p.token, q.token);
    BytesTold(p.from, q.from);
    BytesTold(p.nonce, q.nonce);
  }

  /** And a reference tells everything, the expiry included. */
  lemma PrintTells(p: AuthorizationRef, q: AuthorizationRef)
    requires Print(p) == Print(q)
    ensures p == q
  {
    hide Split, Identity, PrintBytes, PrintNat;
    SplitPrint(p);
    SplitPrint(q);
    var a, b := Split(Print(p)), Split(Print(q));
    assert a[1] == b[1] && a[2] == b[2] && a[3] == b[3] && a[4] == b[4] && a[5] == b[5];
    NatTold(p.chain, q.chain);
    BytesTold(p.token, q.token);
    BytesTold(p.from, q.from);
    BytesTold(p.nonce, q.nonce);
    NatTold(p.validBefore, q.validBefore);
  }
}
