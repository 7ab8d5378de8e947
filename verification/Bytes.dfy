/** Bytes and the fixed-width integers of the wire and file formats.
    Writing a number in `w` bytes keeps its low `8 * w` bits, as a Rust `as` cast does. */
module Bytes {

  type byte = b: int | 0 <= b < 256
  type u16 = n: int | 0 <= n < 0x1_0000
  type u32 = n: int | 0 <= n < 0x1_0000_0000
  type u64 = n: int | 0 <= n < 0x1_0000_0000_0000_0000

  datatype Option<+T> = None | Some(value: T)

  function Pow256(w: nat): (p: nat)
    ensures p >= 1
  {
    if w == 0 then 1 else 256 * Pow256(w - 1)
  }

  /** Little-endian digits of `n`. */
  function Le(n: nat, w: nat): (s: seq<byte>)
    ensures |s| == w
    decreases w
  {
    if w == 0 then [] else [n % 256] + Le(n / 256, w - 1)
  }

  function LeVal(s: seq<byte>): nat {
    if s == [] then 0 else s[0] + 256 * LeVal(s[1..])
  }

  /** Big-endian digits of `n`. */
  function Be(n: nat, w: nat): (s: seq<byte>)
    ensures |s| == w
    decreases w
  {
    if w == 0 then [] else Be(n / 256, w - 1) + [n % 256]
  }

  function BeVal(s: seq<byte>): nat {
    if s == [] then 0 else 256 * BeVal(s[..|s| - 1]) + s[|s| - 1]
  }

  /** `n >> (8 * i)` */
  function Shifted(n: nat, i: nat): nat
    decreases i
  {
    if i == 0 then n else Shifted(n / 256, i - 1)
  }

  /** The lowest byte comes first. */
  lemma {:induction false} LeDigit(n: nat, w: nat, i: nat)
    requires i < w
    ensures Le(n, w)[i] == Shifted(n, i) % 256
    decreases w
  {
    if i > 0 {
      LeDigit(n / 256, w - 1, i - 1);
    }
  }

  /** The highest byte comes first. */
  lemma {:induction false} BeDigit(n: nat, w: nat, i: nat)
    requires i < w
    ensures Be(n, w)[w - 1 - i] == Shifted(n, i) % 256
    decreases w
  {
    if i > 0 {
      BeDigit(n / 256, w - 1, i - 1);
    }
  }

  lemma {:induction false} LeRoundTrip(n: nat, w: nat)
    requires n < Pow256(w)
    ensures LeVal(Le(n, w)) == n
    decreases w
  {
    if w == 0 {
    } else {
      LeRoundTrip(n / 256, w - 1);
      assert Le(n, w)[1..] == Le(n / 256, w - 1);
    }
  }

  lemma {:induction false} LeValBound(s: seq<byte>)
    ensures LeVal(s) < Pow256(|s|)
  {
    if s == [] {
    } else {
      LeValBound(s[1..]);
    }
  }

  lemma {:induction false} LeOfVal(s: seq<byte>)
    ensures Le(LeVal(s), |s|) == s
  {
    if s == [] {
    } else {
      LeOfVal(s[1..]);
      assert LeVal(s) % 256 == s[0] && LeVal(s) / 256 == LeVal(s[1..]);
    }
  }

  lemma {:induction false} BeRoundTrip(n: nat, w: nat)
    requires n < Pow256(w)
    ensures BeVal(Be(n, w)) == n
    decreases w
  {
    if w == 0 {
    } else {
      BeRoundTrip(n / 256, w - 1);
      assert Be(n, w)[..w - 1] == Be(n / 256, w - 1);
    }
  }

  lemma {:induction false} BeValBound(s: seq<byte>)
    ensures BeVal(s) < Pow256(|s|)
  {
    if s == [] {
    } else {
      BeValBound(s[..|s| - 1]);
    }
  }

  lemma ConcatAssoc<T>(a: seq<T>, b: seq<T>, c: seq<T>)
    ensures (a + b) + c == a + (b + c)
  {
    var l, r := (a + b) + c, a + (b + c);
    assert |l| == |r| && forall i :: 0 <= i < |l| ==> l[i] == r[i];
  }

  lemma SubSlice<T>(s: seq<T>, a: nat, b: nat, c: nat, d: nat)
    requires a <= b <= |s| && c <= d <= b - a
    ensures s[a..b][c..d] == s[a + c..a + d]
  {
    var l, r := s[a..b][c..d], s[a + c..a + d];
    assert |l| == |r| && forall i :: 0 <= i < |l| ==> l[i] == r[i];
  }

  /** The bounds of the two-, four- and eight-byte fields. */
  lemma FieldBounds()
    ensures Pow256(1) == 256 && Pow256(2) == 0x1_0000 && Pow256(3) == 0x100_0000
    ensures Pow256(4) == 0x1_0000_0000
    ensures Pow256(8) == 0x1_0000_0000_0000_0000
  {
    assert Pow256(6) == 256 * 256 * Pow256(4);
    assert Pow256(8) == 256 * 256 * Pow256(6);
  }
}
