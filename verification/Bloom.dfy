/** The Bloom filter over domain names: crates/nilbox-blocklist/src/bloom.rs.
    SipHash is any function of a text and a seed. */
module Bloom {
  import opened Bytes

  type Hash = (string, u64) -> u64

  const WORD := 0x1_0000_0000_0000_0000

  // ----- names -----

  function LowerChar(c: char): char {
    if 'A' <= c <= 'Z' then (c as int + 32) as char else c
  }

  function Lower(s: string): (r: string)
    ensures |r| == |s| && forall i :: 0 <= i < |r| ==> !('A' <= r[i] <= 'Z')
  {
    seq(|s|, i requires 0 <= i < |s| => LowerChar(s[i]))
  }

  function TrimDots(s: string): string {
    if s != [] && s[|s| - 1] == '.' then TrimDots(s[..|s| - 1]) else s
  }

  function Normalize(domain: string): string { TrimDots(Lower(domain)) }

  predicate AllDots(s: string) { forall i :: 0 <= i < |s| ==> s[i] == '.' }

  lemma {:induction false} TrimDotsSuffix(s: string, dots: string)
    requires AllDots(dots) && (s == [] || s[|s| - 1] != '.')
    ensures TrimDots(s + dots) == s
  {
    if dots == [] {
      assert s + dots == s;
    } else {
      TrimDotsSuffix(s, dots[..|dots| - 1]);
      assert (s + dots)[..|s + dots| - 1] == s + dots[..|dots| - 1];
      assert (s + dots)[|s + dots| - 1] == dots[|dots| - 1];
    }
  }

  lemma {:induction false} TrimDotsShape(s: string)
    ensures TrimDots(s) <= s && AllDots(s[|TrimDots(s)|..])
    ensures TrimDots(s) == [] || TrimDots(s)[|TrimDots(s)| - 1] != '.'
  {
    if s == [] || s[|s| - 1] != '.' {
    } else {
      var front := s[..|s| - 1];
      TrimDotsShape(front);
      assert s[|TrimDots(front)|..] == front[|TrimDots(front)|..] + ".";
    }
  }

  /** The same letter, capital or small. */
  predicate SameLetter(c: char, d: char) {
    || c == d
    || ('A' <= c <= 'Z' && d as int == c as int + 32)
    || ('A' <= d <= 'Z' && c as int == d as int + 32)
  }

  /** The same text but for capitals. */
  predicate SameText(a: string, b: string) {
    |a| == |b| && forall i :: 0 <= i < |a| ==> SameLetter(a[i], b[i])
  }

  lemma SameTextIsLower(a: string, b: string)
    ensures SameText(a, b) <==> Lower(a) == Lower(b)
  {
    if Lower(a) == Lower(b) {
      assert |a| == |b|;
      forall i | 0 <= i < |a| ensures SameLetter(a[i], b[i]) {
        assert Lower(a)[i] == Lower(b)[i];
      }
    }
  }

  predicate NoDotAtEnd(s: string) { s == [] || s[|s| - 1] != '.' }

  /** Two names with dots after them are taken for one exactly when the names are the same
      but for capitals. */
  lemma NormalizeDecides(a: string, b: string, dots: string, more: string)
    requires NoDotAtEnd(a) && NoDotAtEnd(b) && AllDots(dots) && AllDots(more)
    ensures Normalize(a + dots) == Normalize(b + more) <==> SameText(a, b)
  {
    NormalizeIsLower(a, dots);
    NormalizeIsLower(b, more);
    SameTextIsLower(a, b);
  }

  lemma NormalizeIsLower(a: string, dots: string)
    requires NoDotAtEnd(a) && AllDots(dots)
    ensures Normalize(a + dots) == Lower(a)
  {
    assert Lower(a + dots) == Lower(a) + dots;
    TrimDotsSuffix(Lower(a), dots);
  }

  lemma NormalizeIdempotent(d: string)
    ensures Normalize(Normalize(d)) == Normalize(d)
  {
    var n := Normalize(d);
    TrimDotsShape(Lower(d));
    assert Lower(n) == n;
    TrimDotsSuffix(n, []);
    assert n + [] == n;
  }

  // ----- bits -----

  /** `(b >> k) & 1 == 1` */
  predicate TestBit(b: nat, k: nat) {
    if k == 0 then b % 2 == 1 else TestBit(b / 2, k - 1)
  }

  /** `b | (1 << k)` */
  function SetBit(b: nat, k: nat): nat {
    if k == 0 then b - b % 2 + 1 else 2 * SetBit(b / 2, k - 1) + b % 2
  }

  function Pow2(n: nat): nat { if n == 0 then 1 else 2 * Pow2(n - 1) }

  lemma {:induction false} SetBitSets(b: nat, k: nat, j: nat)
    ensures TestBit(SetBit(b, k), j) <==> j == k || TestBit(b, j)
  {
    if j == 0 || k == 0 {
    } else {
      SetBitSets(b / 2, k - 1, j - 1);
    }
  }

  lemma {:induction false} SetBitFits(b: nat, k: nat, n: nat)
    requires b < Pow2(n) && k < n
    ensures SetBit(b, k) < Pow2(n)
  {
    var half, p := b / 2, Pow2(n - 1);
    assert b == 2 * half + b % 2 && half < p;
    if k == 0 {
    } else {
      SetBitFits(half, k - 1, n - 1);
      assert SetBit(half, k - 1) + 1 <= p;
    }
  }

  lemma {:induction false} BitsDetermine(b: nat, c: nat, n: nat)
    requires b < Pow2(n) && c < Pow2(n)
    requires forall j: nat :: j < n ==> (TestBit(b, j) <==> TestBit(c, j))
    ensures b == c
  {
    if n == 0 {
    } else {
      assert TestBit(b, 0) <==> TestBit(c, 0);
      forall j: nat | j < n - 1 ensures TestBit(b / 2, j) <==> TestBit(c / 2, j) {
        assert TestBit(b, j + 1) <==> TestBit(c, j + 1);
      }
      BitsDetermine(b / 2, c / 2, n - 1);
    }
  }

  predicate Bit(bits: seq<byte>, p: nat)
    requires p < 8 * |bits|
  {
    TestBit(bits[p / 8], p % 8)
  }

  /** Two bit arrays of one size with the same bits are the same bytes. */
  lemma SameBitsSameBytes(a: seq<byte>, b: seq<byte>)
    requires |a| == |b| && forall p: nat :: p < 8 * |a| ==> (Bit(a, p) <==> Bit(b, p))
    ensures a == b
  {
    forall i | 0 <= i < |a| ensures a[i] == b[i] {
      forall j: nat | j < 8 ensures TestBit(a[i], j) <==> TestBit(b[i], j) {
        var p := 8 * i + j;
        assert p / 8 == i && p % 8 == j;
        assert Bit(a, p) <==> Bit(b, p);
      }
      assert Pow2(8) == 256;
      BitsDetermine(a[i], b[i], 8);
    }
  }

  // ----- positions -----

  function Wrap(n: nat): u64 { n % WORD }

  /** Hash number `i`: wrapping 64-bit arithmetic. */
  function Mixed(h: Hash, domain: string, i: nat): u64 { Wrap(h(domain, 0) + Wrap(i * h(domain, 1))) }

  lemma MixedStarts(h: Hash, domain: string)
    ensures Mixed(h, domain, 0) == h(domain, 0)
  {
  }

  /** The first hash, and then the second added once more each time. */
  lemma MixedSteps(h: Hash, domain: string, i: nat)
    ensures Mixed(h, domain, i + 1) == Wrap(Mixed(h, domain, i) + h(domain, 1))
  {
    var x, y := OnceMore(i, h(domain, 1));
    AddAfterWrap(h(domain, 0), x, y, h(domain, 1));
  }

  lemma OnceMore(i: nat, b: nat) returns (x: nat, y: nat)
    ensures x == i * b && y == (i + 1) * b && y == x + b
  {
    x, y := i * b, (i + 1) * b;
  }

  lemma WrapInside(a: nat, x: nat)
    ensures Wrap(a + Wrap(x)) == Wrap(a + x)
  {
    assert x == x / WORD * WORD + x % WORD;
  }

  lemma AddAfterWrap(a: nat, x: nat, y: nat, b: nat)
    requires y == x + b
    ensures Wrap(a + Wrap(y)) == Wrap(Wrap(a + Wrap(x)) + b)
  {
    WrapInside(a, y);
    WrapInside(a, x);
    WrapInside(b, a + x);
    assert b + (a + x) == a + y;
  }

  /** The bit of hash number `i`. */
  function Position(h: Hash, domain: string, i: nat, numBits: nat): (p: nat)
    requires numBits > 0
    ensures p < numBits
  {
    Mixed(h, domain, i) % numBits
  }

  function Positions(h: Hash, domain: string, numHashes: nat, numBits: nat): (ps: seq<nat>)
    requires numBits > 0
    ensures |ps| == numHashes
    ensures forall i :: 0 <= i < numHashes ==> ps[i] == Position(h, domain, i, numBits)
    ensures forall i :: 0 <= i < |ps| ==> ps[i] < numBits
  {
    seq(numHashes, i requires 0 <= i => Position(h, domain, i, numBits))
  }

  /** Every bit of the normalised name is set. */
  predicate Member(h: Hash, bits: seq<byte>, numHashes: nat, domain: string)
    requires |bits| > 0
  {
    forall i :: 0 <= i < numHashes ==> Bit(bits, Positions(h, Normalize(domain), numHashes, 8 * |bits|)[i])
  }

  // ----- the filter -----

  class BloomFilter {
    const bits: array<byte>
    const numBits: nat
    const numHashes: nat

    ghost predicate Valid()
    {
      bits.Length > 0 && numBits == 8 * bits.Length
    }

    /** The sizing formula gives at least one byte and one hash. */
    constructor WithCapacity(byteLen: nat, hashes: nat)
      requires byteLen >= 1 && hashes >= 1
      ensures Valid() && fresh(bits) && bits.Length == byteLen && numHashes == hashes
      ensures bits[..] == seq(byteLen, _ => 0)
    {
      bits := new byte[byteLen](_ => 0);
      numBits := 8 * byteLen;
      numHashes := hashes;
    }

    constructor FromRaw(raw: seq<byte>, hashes: nat)
      requires |raw| > 0
      ensures Valid() && fresh(bits) && bits[..] == raw && numHashes == hashes
    {
      bits := new byte[|raw|](i requires 0 <= i < |raw| => raw[i]);
      numBits := 8 * |raw|;
      numHashes := hashes;
    }

    /** Sets the bits of the normalised name and no others. */
    method Insert(h: Hash, domain: string)
      requires Valid()
      modifies bits
      ensures forall p: nat :: p < numBits ==>
        (Bit(bits[..], p) <==> old(Bit(bits[..], p)) || p in Positions(h, Normalize(domain), numHashes, numBits))
    {
      var positions := Positions(h, Normalize(domain), numHashes, numBits);
      var n := 0;
      while n < |positions|
        invariant 0 <= n <= |positions|
        invariant forall p: nat :: p < numBits ==> (Bit(bits[..], p) <==> old(Bit(bits[..], p)) || p in positions[..n])
      {
        var pos := positions[n];
        SetOne(pos);
        assert positions[..n + 1] == positions[..n] + [pos];
        n := n + 1;
      }
      assert positions[..n] == positions;
    }

    method SetOne(pos: nat)
      requires Valid() && pos < numBits
      modifies bits
      ensures forall p: nat :: p < numBits ==> (Bit(bits[..], p) <==> old(Bit(bits[..], p)) || p == pos)
    {
      var byteIndex, bit := pos / 8, pos % 8;
      assert Pow2(8) == 256;
      SetBitFits(bits[byteIndex], bit, 8);
      bits[byteIndex] := SetBit(bits[byteIndex], bit);
      forall p: nat | p < numBits ensures Bit(bits[..], p) <==> old(Bit(bits[..], p)) || p == pos {
        SetBitSets(old(bits[byteIndex]), bit, p % 8);
        assert p == 8 * (p / 8) + p % 8 && pos == 8 * byteIndex + bit;
      }
    }

    method Contains(h: Hash, domain: string) returns (r: bool)
      requires Valid()
      ensures r <==> Member(h, bits[..], numHashes, domain)
    {
      var positions := Positions(h, Normalize(domain), numHashes, numBits);
      r := true;
      var n := 0;
      while n < |positions|
        invariant 0 <= n <= |positions|
        invariant r <==> forall i :: 0 <= i < n ==> Bit(bits[..], positions[i])
      {
        r := r && TestBit(bits[positions[n] / 8], positions[n] % 8);
        n := n + 1;
      }
    }

    /** True if the name or one of its parent domains is a member. */
    method CheckWithParents(h: Hash, domain: string) returns (r: bool)
      requires Valid()
      ensures r <==> Blocked(h, bits[..], numHashes, domain)
    {
      var normalized := Normalize(domain);
      var at := 0;
      assert normalized[0..] == normalized;
      while true
        invariant 0 <= at <= |normalized| && LabelStart(normalized, at)
        invariant forall i :: 0 <= i < at && LabelStart(normalized, i) ==>
          !Member(h, bits[..], numHashes, normalized[i..])
        decreases |normalized| - at
      {
        var found := Contains(h, normalized[at..]);
        if found {
          return true;
        }
        var dot := FindDot(normalized, at);
        if dot < 0 {
          return false;
        }
        at := dot + 1;
      }
    }
  }

  /** `find('.')` from `at` on. */
  method FindDot(s: string, at: nat) returns (dot: int)
    requires at <= |s|
    ensures dot < 0 ==> forall i :: at <= i < |s| ==> s[i] != '.'
    ensures dot >= 0 ==> at <= dot < |s| && s[dot] == '.' && forall i :: at <= i < dot ==> s[i] != '.'
  {
    dot := at;
    while dot < |s|
      invariant at <= dot <= |s| && forall i :: at <= i < dot ==> s[i] != '.'
    {
      if s[dot] == '.' {
        return;
      }
      dot := dot + 1;
    }
    dot := -1;
  }

  predicate LabelStart(s: string, i: nat) { i <= |s| && (i == 0 || s[i - 1] == '.') }

  ghost predicate Blocked(h: Hash, bits: seq<byte>, numHashes: nat, domain: string)
    requires |bits| > 0
  {
    exists i: nat :: LabelStart(Normalize(domain), i) && Member(h, bits, numHashes, Normalize(domain)[i..])
  }

  // ----- filters of a set -----

  /** A bit is set exactly when some name of the set hashes to it. */
  ghost predicate FilterOf(h: Hash, bits: seq<byte>, numHashes: nat, domains: set<string>) {
    |bits| > 0 && forall p: nat :: p < 8 * |bits| ==>
      (Bit(bits, p) <==> exists d :: d in domains && p in Positions(h, Normalize(d), numHashes, 8 * |bits|))
  }

  /** The array depends on the set alone, not on the order of insertion. */
  lemma FilterIsUnique(h: Hash, a: seq<byte>, b: seq<byte>, numHashes: nat, domains: set<string>)
    requires |a| == |b| && FilterOf(h, a, numHashes, domains) && FilterOf(h, b, numHashes, domains)
    ensures a == b
  {
    SameBitsSameBytes(a, b);
  }

  lemma MembersAreFound(h: Hash, bits: seq<byte>, numHashes: nat, domains: set<string>, d: string)
    requires FilterOf(h, bits, numHashes, domains) && d in domains
    ensures Member(h, bits, numHashes, d)
  {
    var ps := Positions(h, Normalize(d), numHashes, 8 * |bits|);
    forall i | 0 <= i < numHashes ensures Bit(bits, ps[i]) {
      assert ps[i] in ps;
    }
  }

  /** What is reported, exactly: a name each of whose bits some name of the set shares. */
  lemma MemberIff(h: Hash, bits: seq<byte>, numHashes: nat, domains: set<string>, d: string)
    requires FilterOf(h, bits, numHashes, domains)
    ensures Member(h, bits, numHashes, d) <==> forall i: nat :: i < numHashes ==>
      Shared(h, domains, numHashes, 8 * |bits|, Position(h, Normalize(d), i, 8 * |bits|))
  {
    var ps := Positions(h, Normalize(d), numHashes, 8 * |bits|);
    forall i: nat | i < numHashes ensures Bit(bits, ps[i]) <==> Shared(h, domains, numHashes, 8 * |bits|, ps[i]) {
    }
  }

  ghost predicate Shared(h: Hash, domains: set<string>, numHashes: nat, numBits: nat, p: nat)
    requires numBits > 0
  {
    exists d, j: nat :: d in domains && j < numHashes && p == Position(h, Normalize(d), j, numBits)
  }

  /** An empty set reports nothing. */
  lemma EmptyReportsNothing(h: Hash, bits: seq<byte>, numHashes: nat, query: string)
    requires FilterOf(h, bits, numHashes, {}) && numHashes > 0
    ensures !Blocked(h, bits, numHashes, query)
  {
    forall d ensures !Member(h, bits, numHashes, d) {
      assert !Bit(bits, Positions(h, Normalize(d), numHashes, 8 * |bits|)[0]);
    }
  }

  /** `query` is `name` or a subdomain of it, in any letter case and with any trailing dots. */
  ghost predicate Under(query: string, name: string, prefix: string, dots: string) {
    AllDots(dots) && (prefix == [] || prefix[|prefix| - 1] == '.') && SameText(query, prefix + name + dots)
  }

  lemma LowerConcat(a: string, b: string)
    ensures Lower(a + b) == Lower(a) + Lower(b)
  {
  }

  /** The part of a lower-case name that trimming takes away. */
  lemma TrimmedDots(s: string) returns (dots: string)
    ensures AllDots(dots) && s == TrimDots(s) + dots && NoDotAtEnd(TrimDots(s))
  {
    TrimDotsShape(s);
    dots := s[|TrimDots(s)|..];
  }

  lemma TrimBehind(p: string, n: string, more: string, dots: string)
    requires n != [] && NoDotAtEnd(n) && AllDots(more) && AllDots(dots)
    ensures TrimDots(p + (n + more) + dots) == p + n
  {
    TrimDotsSuffix(p + n, more + dots);
    assert p + (n + more) + dots == (p + n) + (more + dots);
  }

  lemma UnderNormalizes(query: string, name: string, prefix: string, dots: string)
    requires Under(query, name, prefix, dots) && Normalize(name) != []
    ensures Normalize(query) == Lower(prefix) + Normalize(name)
  {
    SameTextIsLower(query, prefix + name + dots);
    LowerConcat(prefix + name, dots);
    LowerConcat(prefix, name);
    assert Lower(dots) == dots;
    var more := TrimmedDots(Lower(name));
    TrimBehind(Lower(prefix), Normalize(name), more, dots);
  }

  /** No false negatives: a name of the set is reported together with everything under it. */
  lemma NoFalseNegatives(h: Hash, bits: seq<byte>, numHashes: nat, domains: set<string>,
                         name: string, query: string, prefix: string, dots: string)
    requires FilterOf(h, bits, numHashes, domains) && name in domains
    requires Normalize(name) != [] && Under(query, name, prefix, dots)
    ensures Blocked(h, bits, numHashes, query)
  {
    UnderNormalizes(query, name, prefix, dots);
    var n := Normalize(query);
    assert LabelStart(n, |prefix|) && n[|prefix|..] == Normalize(name);
    MembersAreFound(h, bits, numHashes, domains, name);
    NormalizeIdempotent(name);
  }
}
