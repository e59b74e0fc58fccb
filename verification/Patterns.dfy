/** Merchant ids and merchant patterns (ml-core: ids, mandate). Strings are
    sequences of Unicode scalar values; lengths that the source measures in
    bytes are measured in UTF-8 bytes here too. */
module Patterns {
  import opened Prelude

  // ----- text -----

  /** Unicode `White_Space`, as `str::trim` uses it. */
  predicate IsSpace(c: char) {
    || '\t' <= c <= '\r' || c == ' ' || c == '\U{85}' || c == '\U{A0}' || c == '\U{1680}'
    || '\U{2000}' <= c <= '\U{200A}' || c == '\U{2028}' || c == '\U{2029}' || c == '\U{202F}'
    || c == '\U{205F}' || c == '\U{3000}'
  }

  /** The twenty-five code points of `White_Space`. */
  lemma SpaceIsWhiteSpace(c: char)
    ensures IsSpace(c) <==>
            c as int in {9, 10, 11, 12, 13, 32, 133, 160, 5760, 8192, 8193, 8194, 8195, 8196, 8197, 8198, 8199, 8200,
                         8201, 8202, 8232, 8233, 8239, 8287, 12288}
  {
  }

  function LowerChar(c: char): char {
    if 'A' <= c <= 'Z' then ((c as int) + 32) as char else c
  }

  function Lower(s: string): (r: string)
    ensures |r| == |s|
    ensures forall i :: 0 <= i < |s| ==> r[i] == LowerChar(s[i])
  {
    seq(|s|, i requires 0 <= i < |s| => LowerChar(s[i]))
  }

  function TrimStart(s: string): string {
    if s != "" && IsSpace(s[0]) then TrimStart(s[1..]) else s
  }

  function TrimEnd(s: string): string {
    if s != "" && IsSpace(Last(s)) then TrimEnd(DropLast(s)) else s
  }

  function Trim(s: string): string {
    TrimStart(TrimEnd(s))
  }

  function CharBytes(c: char): nat {
    if c < '\U{80}' then 1 else if c < '\U{800}' then 2 else if c < '\U{10000}' then 3 else 4
  }

  function ByteLen(s: string): nat {
    if s == "" then 0 else CharBytes(s[0]) + ByteLen(s[1..])
  }

  predicate EndsWith(s: string, suffix: string) {
    |suffix| <= |s| && s[|s| - |suffix|..] == suffix
  }

  /** No space at either end and no upper-case letter: what `Trim` and `Lower` leave alone. */
  predicate Tidy(s: string) {
    && (s != "" ==> !IsSpace(s[0]) && !IsSpace(Last(s)))
    && forall i :: 0 <= i < |s| ==> s[i] == LowerChar(s[i])
  }

  lemma LowerTidy(s: string)
    requires Tidy(s)
    ensures Trim(s) == s && Lower(s) == s
  {
    assert Lower(s) == s;
  }

  lemma {:induction false} TrimStartTidies(s: string)
    ensures var r := TrimStart(s);
            && (r != "" ==> !IsSpace(r[0]))
            && EndsWith(s, r)
            && (r != "" && !IsSpace(Last(s)) ==> !IsSpace(Last(r)))
    decreases |s|
  {
    if s != "" && IsSpace(s[0]) {
      TrimStartTidies(s[1..]);
    }
  }

  lemma {:induction false} TrimEndTidies(s: string)
    ensures var r := TrimEnd(s); r <= s && (r != "" ==> !IsSpace(Last(r)))
    decreases |s|
  {
    if s != "" && IsSpace(Last(s)) {
      TrimEndTidies(DropLast(s));
    }
  }

  lemma LowerCharKeeps(c: char)
    ensures IsSpace(LowerChar(c)) == IsSpace(c)
    ensures LowerChar(LowerChar(c)) == LowerChar(c)
  {
  }

  lemma TrimEnds(s: string)
    ensures var t := Trim(s); t != "" ==> !IsSpace(t[0]) && !IsSpace(Last(t))
  {
    TrimEndTidies(s);
    TrimStartTidies(TrimEnd(s));
  }

  lemma LowerOfTrimmed(t: string)
    requires t != "" ==> !IsSpace(t[0]) && !IsSpace(Last(t))
    ensures Tidy(Lower(t))
  {
    var l := Lower(t);
    forall i | 0 <= i < |t|
      ensures l[i] == LowerChar(l[i]) && IsSpace(l[i]) == IsSpace(t[i])
    {
      LowerCharKeeps(t[i]);
    }
  }

  lemma TrimTidies(s: string)
    ensures Tidy(Lower(Trim(s)))
  {
    TrimEnds(s);
    LowerOfTrimmed(Trim(s));
  }

  lemma {:induction false} ByteLenSnoc(c: char, s: string)
    ensures ByteLen([c] + s) == CharBytes(c) + ByteLen(s)
  {
    assert ([c] + s)[1..] == s;
  }

  // ----- merchant ids -----

  /** The strings `MerchantId::new` can hold: normalized, 1 to 256 bytes. */
  predicate IsMerchant(m: string) {
    m != "" && Tidy(m) && ByteLen(m) <= 256
  }

  /** `MerchantId::new`. */
  function NewMerchant(value: string): (r: Option<string>)
    ensures r.Some? ==> IsMerchant(r.value)
    ensures IsMerchant(value) ==> r == Some(value)
  {
    var s := Trim(Lower(value));
    MerchantNormal(value);
    if s == "" || ByteLen(s) > 256 then None else Some(s)
  }

  lemma LowerFixed(s: string)
    ensures forall i :: 0 <= i < |s| ==> Lower(s)[i] == LowerChar(Lower(s)[i])
  {
    forall i | 0 <= i < |s|
      ensures Lower(s)[i] == LowerChar(Lower(s)[i])
    {
      LowerCharKeeps(s[i]);
    }
  }

  lemma TrimIsPart(s: string)
    ensures forall c :: c in Trim(s) ==> c in s
  {
    hide IsSpace;
    TrimEndTidies(s);
    TrimStartTidies(TrimEnd(s));
  }

  lemma MerchantNormal(value: string)
    ensures Tidy(Trim(Lower(value)))
    ensures Tidy(value) ==> Trim(Lower(value)) == value
  {
    hide IsSpace, LowerChar, Trim, Lower;
    var l := Lower(value);
    LowerFixed(value);
    TrimEnds(l);
    TrimIsPart(l);
    var t := Trim(l);
    forall i | 0 <= i < |t|
      ensures t[i] == LowerChar(t[i])
    {
      assert t[i] in l;
    }
    if Tidy(value) {
      LowerTidy(value);
    }
  }

  predicate AllSpace(s: string) {
    forall i :: 0 <= i < |s| ==> IsSpace(s[i])
  }

  /** `t` is `s` without the space at its ends, split out of it at `i`. */
  predicate TrimmedAt(s: string, t: string, i: nat) {
    && i + |t| <= |s| && s[i..i + |t|] == t
    && AllSpace(s[..i]) && AllSpace(s[i + |t|..])
    && (t != "" ==> !IsSpace(t[0]) && !IsSpace(Last(t)))
  }

  lemma {:induction false} TrimEndAt(s: string)
    ensures TrimEnd(s) <= s && AllSpace(s[|TrimEnd(s)|..])
    ensures TrimEnd(s) != "" ==> !IsSpace(Last(TrimEnd(s)))
    decreases |s|
  {
    hide IsSpace;
    if s != "" && IsSpace(Last(s)) {
      TrimEndAt(DropLast(s));
      assert s == DropLast(s) + [Last(s)];
    }
  }

  lemma {:induction false} TrimStartAt(s: string)
    ensures EndsWith(s, TrimStart(s)) && AllSpace(s[..|s| - |TrimStart(s)|])
    ensures TrimStart(s) != "" ==> !IsSpace(TrimStart(s)[0])
    decreases |s|
  {
    hide IsSpace;
    if s != "" && IsSpace(s[0]) {
      TrimStartAt(s[1..]);
      var n := |s| - |TrimStart(s)|;
      assert s[..n] == [s[0]] + s[1..][..n - 1];
    }
  }

  lemma TrimAt(s: string) returns (i: nat)
    ensures TrimmedAt(s, Trim(s), i)
  {
    hide IsSpace, TrimStart, TrimEnd;
    var e := TrimEnd(s);
    TrimEndAt(s);
    TrimStartAt(e);
    var t := TrimStart(e);
    i := |e| - |t|;
    assert s[..i] == e[..i] && s[i..i + |t|] == e[i..];
  }

  lemma InsideTrimmed(s: string, t: string, i: nat, k: nat)
    requires TrimmedAt(s, t, i) && k < |s|
    ensures IsSpace(s[k]) || i <= k < i + |t|
  {
    hide IsSpace;
    assert k < i ==> s[..i][k] == s[k];
    assert k >= i + |t| ==> s[i + |t|..][k - i - |t|] == s[k];
  }

  lemma TrimOnce(s: string, t: string, i: nat, u: string, j: nat)
    requires TrimmedAt(s, t, i) && TrimmedAt(s, u, j) && t != ""
    ensures t == u
  {
    hide IsSpace;
    assert t[0] == s[i] && Last(t) == s[i + |t| - 1];
    InsideTrimmed(s, u, j, i);
    InsideTrimmed(s, u, j, i + |t| - 1);
    assert u[0] == s[j] && Last(u) == s[j + |u| - 1];
    InsideTrimmed(s, t, i, j);
    InsideTrimmed(s, t, i, j + |u| - 1);
  }

  lemma LowerAt(value: string, m: string, i: nat)
    requires m != "" && i + |m| <= |value|
    ensures TrimmedAt(Lower(value), m, i) <==>
            && Lower(value[i..i + |m|]) == m
            && AllSpace(value[..i]) && AllSpace(value[i + |m|..]) && !IsSpace(m[0]) && !IsSpace(Last(m))
  {
    hide IsSpace, LowerChar;
    var l := Lower(value);
    forall k | 0 <= k < |value|
      ensures IsSpace(l[k]) == IsSpace(value[k])
    {
      LowerCharKeeps(value[k]);
    }
    assert l[i..i + |m|] == Lower(value[i..i + |m|]);
    assert AllSpace(l[..i]) <==> AllSpace(value[..i]) by { SpaceAlike(l[..i], value[..i]); }
    assert AllSpace(l[i + |m|..]) <==> AllSpace(value[i + |m|..]) by { SpaceAlike(l[i + |m|..], value[i + |m|..]); }
  }

  lemma SpaceAlike(a: string, b: string)
    requires |a| == |b| && forall k :: 0 <= k < |a| ==> IsSpace(a[k]) == IsSpace(b[k])
    ensures AllSpace(a) <==> AllSpace(b)
  {
    hide IsSpace;
    if AllSpace(a) {
      assert forall k :: 0 <= k < |a| ==> IsSpace(a[k]);
    }
    if AllSpace(b) {
      assert forall k :: 0 <= k < |b| ==> IsSpace(b[k]);
    }
  }

  /** `m` is what `value` says in lower case between the space at its ends. */
  ghost predicate SaysBetweenSpace(value: string, m: string) {
    exists i: nat :: i + |m| <= |value| && Lower(value[i..i + |m|]) == m
      && AllSpace(value[..i]) && AllSpace(value[i + |m|..])
  }

  /** A merchant id is read from exactly the strings that say it, in any case, with any space
      around it. */
  lemma MerchantExactly(value: string, m: string)
    ensures NewMerchant(value) == Some(m) <==> IsMerchant(m) && SaysBetweenSpace(value, m)
  {
    hide IsSpace, LowerChar, Trim, TrimEnd, TrimStart, ByteLen, TrimmedAt, Lower;
    var l := Lower(value);
    var i := TrimAt(l);
    var t := Trim(l);
    TrimmedFits(l, t, i);
    if NewMerchant(value) == Some(m) {
      LowerAt(value, m, i);
    }
    if IsMerchant(m) && SaysBetweenSpace(value, m) {
      var j: nat :| j + |m| <= |value| && Lower(value[j..j + |m|]) == m
        && AllSpace(value[..j]) && AllSpace(value[j + |m|..]);
      LowerAt(value, m, j);
      TrimOnce(l, m, j, t, i);
    }
  }

  lemma TrimmedFits(s: string, t: string, i: nat)
    requires TrimmedAt(s, t, i)
    ensures i + |t| <= |s|
  {
  }

  // ----- patterns -----

  datatype MerchantPattern = Any | Exact(id: string) | Suffix(suffix: string)

  /** `MerchantPattern::parse`. */
  function Parse(pattern: string): Option<MerchantPattern> {
    var s := Lower(Trim(pattern));
    if s == "" then None
    else if s == "*" then Some(Any)
    else if "*." <= s then
      var rest := s[2..];
      if rest == "" || '*' in rest then None else Some(Suffix("." + rest))
    else if '*' in s then None
    else Some(Exact(s))
  }

  function Display(p: MerchantPattern): string {
    match p
    case Any => "*"
    case Exact(e) => Lower(Trim(e))
    case Suffix(s) => "*" + Lower(Trim(s))
  }

  predicate Matches(p: MerchantPattern, m: string) {
    match p
    case Any => true
    case Exact(e) => e == m
    case Suffix(s) => |m| > |s| && EndsWith(m, s)
  }

  predicate IsSubset(p: MerchantPattern, q: MerchantPattern) {
    match (p, q)
    case (_, Any) => true
    case (Any, _) => false
    case (Suffix(_), Exact(_)) => false
    case (Exact(a), Exact(b)) => a == b
    case (Exact(a), Suffix(s)) => |a| > |s| && EndsWith(a, s)
    case (Suffix(a), Suffix(b)) => EndsWith(a, b)
  }

  /** What `Parse` produces, described without it. */
  predicate Canonical(p: MerchantPattern) {
    match p
    case Any => true
    case Exact(e) => e != "" && Tidy(e) && '*' !in e
    case Suffix(s) => |s| >= 2 && s[0] == '.' && Tidy(s) && '*' !in s
  }

  /** Too long for any merchant id to match. */
  predicate Unmatchable(p: MerchantPattern) {
    match p
    case Any => false
    case Exact(e) => ByteLen(e) > 256
    case Suffix(s) => ByteLen(s) > 255
  }

  /** Every merchant `p` admits, `q` admits. */
  ghost predicate Covers(q: MerchantPattern, p: MerchantPattern) {
    forall m | IsMerchant(m) && Matches(p, m) :: Matches(q, m)
  }

  lemma ParseCanonical(pattern: string)
    ensures Parse(pattern).Some? ==> Canonical(Parse(pattern).value)
  {
    TrimTidies(pattern);
    var s := Lower(Trim(pattern));
    if "*." <= s && s != "*." {
      var suffix := "." + s[2..];
      assert Last(suffix) == Last(s);
      assert forall i :: 1 <= i < |suffix| ==> suffix[i] == s[i + 1];
    }
  }

  /** Printing and parsing again gives the pattern back. */
  lemma DisplayParses(p: MerchantPattern)
    requires Canonical(p)
    ensures Parse(Display(p)) == Some(p)
  {
    match p
    case Any => LowerTidy("*");
    case Exact(e) => LowerTidy(e);
    case Suffix(s) =>
      LowerTidy(s);
      var d := "*" + s;
      assert Last(d) == Last(s);
      assert forall i :: 1 <= i < |d| ==> d[i] == s[i - 1];
      LowerTidy(d);
      assert d[2..] == s[1..];
      assert "." + s[1..] == s;
  }

  lemma ParseSame(a: string, b: string)
    requires Lower(Trim(a)) == Lower(Trim(b))
    ensures Parse(a) == Parse(b)
  {
    hide Lower, Trim;
  }

  lemma ParsedPrints(pattern: string)
    requires Parse(pattern).Some?
    ensures var s := Lower(Trim(pattern));
            match Parse(pattern).value case Any => s == "*" case Exact(e) => s == e case Suffix(t) => s == "*" + t
  {
    hide Lower, Trim;
    var s := Lower(Trim(pattern));
    if Parse(pattern).value.Suffix? {
      assert s == "*" + ("." + s[2..]);
    }
  }

  lemma DisplayTidy(p: MerchantPattern)
    requires Canonical(p)
    ensures Lower(Trim(Display(p))) == Display(p)
  {
    hide IsSpace, LowerChar, Trim, Lower;
    DisplayPlain(p);
    StarTidy();
    match p
    case Any => LowerTidy("*");
    case Exact(e) => LowerTidy(e);
    case Suffix(s) =>
      var d := "*" + s;
      assert Last(d) == Last(s);
      assert forall i :: 1 <= i < |d| ==> d[i] == s[i - 1];
      LowerTidy(d);
  }

  lemma StarTidy()
    ensures !IsSpace('*') && LowerChar('*') == '*'
  {
  }

  /** A pattern is read from exactly the strings that, in lower case and without the space
      around them, are its printed form. */
  lemma ParsesExactly(pattern: string, p: MerchantPattern)
    ensures Parse(pattern) == Some(p) <==> Canonical(p) && Lower(Trim(pattern)) == Display(p)
  {
    hide Lower, Trim, Parse, Display, Canonical;
    if Parse(pattern) == Some(p) {
      ParseCanonical(pattern);
      ParsedPrints(pattern);
      DisplayPlain(p);
    }
    if Canonical(p) && Lower(Trim(pattern)) == Display(p) {
      DisplayParses(p);
      DisplayTidy(p);
      ParseSame(pattern, Display(p));
    }
  }

  lemma DisplayPlain(p: MerchantPattern)
    requires Canonical(p)
    ensures Display(p) == match p case Any => "*" case Exact(e) => e case Suffix(s) => "*" + s
  {
    if p.Exact? {
      LowerTidy(p.id);
    } else if p.Suffix? {
      LowerTidy(p.suffix);
    }
  }

  lemma SuffixChain(m: string, a: string, b: string)
    requires EndsWith(m, a) && EndsWith(a, b)
    ensures EndsWith(m, b)
  {
    assert m[|m| - |b|..] == m[|m| - |a|..][|a| - |b|..];
  }

  /** The subset test never says yes wrongly, for any patterns and any ids. */
  lemma SubsetSound(p: MerchantPattern, q: MerchantPattern, m: string)
    requires IsSubset(p, q) && Matches(p, m)
    ensures Matches(q, m)
  {
    if p.Suffix? && q.Suffix? {
      SuffixChain(m, p.suffix, q.suffix);
    }
  }

  lemma SubsetTransitive(p: MerchantPattern, q: MerchantPattern, r: MerchantPattern)
    requires IsSubset(p, q) && IsSubset(q, r)
    ensures IsSubset(p, r)
  {
    if p.Exact? && q.Suffix? && r.Suffix? {
      SuffixChain(p.id, q.suffix, r.suffix);
    } else if p.Suffix? && q.Suffix? && r.Suffix? {
      SuffixChain(p.suffix, q.suffix, r.suffix);
    }
  }

  /** `c` in front of a matchable suffix is a merchant the suffix pattern admits. */
  lemma UnderSuffix(c: char, s: string)
    requires Canonical(Suffix(s)) && !Unmatchable(Suffix(s)) && c in "xy"
    ensures IsMerchant([c] + s) && Matches(Suffix(s), [c] + s)
  {
    ByteLenSnoc(c, s);
    var m := [c] + s;
    assert Last(m) == Last(s);
    assert forall i :: 1 <= i < |m| ==> m[i] == s[i - 1];
  }

  lemma SomeMerchants()
    ensures IsMerchant("x") && IsMerchant("y")
  {
    assert ByteLen("x") == 1 && ByteLen("y") == 1;
  }

  /** `is_subset_of` decides inclusion: on parsed patterns it holds exactly when
      every merchant is covered, except that a pattern too long to match
      anything is covered by everything. */
  lemma SubsetExact(p: MerchantPattern, q: MerchantPattern)
    requires Canonical(p) && Canonical(q)
    ensures Covers(q, p) <==> IsSubset(p, q) || Unmatchable(p)
  {
    if IsSubset(p, q) {
      forall m | IsMerchant(m) && Matches(p, m)
        ensures Matches(q, m)
      {
        SubsetSound(p, q, m);
      }
    }
    if Unmatchable(p) {
      UnmatchableMatchesNothing(p);
    }
    if Covers(q, p) && !Unmatchable(p) {
      CoversImpliesSubset(p, q);
    }
  }

  lemma {:induction false} UnmatchableMatchesNothing(p: MerchantPattern)
    requires Unmatchable(p)
    ensures forall m | IsMerchant(m) :: !Matches(p, m)
  {
    forall m | IsMerchant(m)
      ensures !Matches(p, m)
    {
      if p.Suffix? && Matches(p, m) {
        SuffixBytes(m, p.suffix);
      }
    }
  }

  lemma {:induction false} SuffixBytes(m: string, s: string)
    requires |m| > |s| && EndsWith(m, s)
    ensures ByteLen(m) >= 1 + ByteLen(s)
    decreases |m|
  {
    if |m| == |s| + 1 {
      assert m[1..] == s;
    } else {
      SuffixBytes(m[1..], s);
    }
  }

  lemma CoversImpliesSubset(p: MerchantPattern, q: MerchantPattern)
    requires Canonical(p) && Canonical(q) && Covers(q, p) && !Unmatchable(p)
    ensures IsSubset(p, q)
  {
    match p
    case Any =>
      SomeMerchants();
      assert Matches(q, "x") && Matches(q, "y");
    case Exact(a) =>
      assert IsMerchant(a) && Matches(q, a);
    case Suffix(a) => SuffixCovered(a, q);
  }

  lemma SuffixCovered(a: string, q: MerchantPattern)
    requires Canonical(Suffix(a)) && !Unmatchable(Suffix(a))
    requires Covers(q, Suffix(a))
    ensures IsSubset(Suffix(a), q)
  {
    hide Canonical, IsMerchant, IsSubset, Unmatchable;
    UnderSuffix('x', a);
    UnderSuffix('y', a);
    assert Matches(q, ['x'] + a) && Matches(q, ['y'] + a);
    MatchesTwo(a, q);
  }

  lemma MatchesTwo(a: string, q: MerchantPattern)
    requires Matches(q, ['x'] + a) && Matches(q, ['y'] + a)
    ensures IsSubset(Suffix(a), q)
  {
    var x, y := ['x'] + a, ['y'] + a;
    assert x[0] != y[0];
    if q.Suffix? {
      assert x[|x| - |q.suffix|..] == a[|a| - |q.suffix|..];
    }
  }

  /** The exception is real: an over-long exact pattern is not reported as a
      subset of another pattern although it matches no merchant at all. */
  lemma LongPatternNotReported(e: string)
    requires Canonical(Exact(e)) && ByteLen(e) > 256
    ensures Covers(Exact("a"), Exact(e)) && !IsSubset(Exact(e), Exact("a"))
  {
    UnmatchableMatchesNothing(Exact(e));
    assert ByteLen("a") == 1;
  }
}
