/**
  Machine words as their 32 bits, most significant first, and the two ways the code turns
  a netmask into a prefix length: a loop over the bits, and a leading-ones trick.
 */
module Netmask {
  import opened Wrappers

  type Bits = seq<bool>
  type Word = w: seq<bool> | |w| == 32 witness seq(32, _ => false)
  type Octet = x: int | 0 <= x < 256

  function Ones(n: nat): (r: Bits)
    ensures |r| == n && forall i :: 0 <= i < n ==> r[i]
  {
    seq(n, _ => true)
  }

  function Zeros(n: nat): (r: Bits)
    ensures |r| == n && forall i :: 0 <= i < n ==> !r[i]
  {
    seq(n, _ => false)
  }

  /** The contiguous mask of a prefix length. */
  function Mask(p: nat): Word
    requires p <= 32
  {
    Ones(p) + Zeros(32 - p)
  }

  function ShiftLeft(w: Word, k: nat): Word
    requires k < 32
  {
    w[k..] + Zeros(k)
  }

  function And(a: Word, b: Word): Word {
    seq(32, i requires 0 <= i < 32 => a[i] && b[i])
  }

  lemma ShiftedOnes(p: nat)
    requires 1 <= p <= 32
    ensures ShiftLeft(Ones(32), 32 - p) == Mask(p)
  {
  }

  /** The prefix length of a contiguous mask, and nothing for any other word. */
  ghost predicate IsPrefixOf(w: Word, r: Option<nat>) {
    && (r.Some? ==> r.value <= 32 && w == Mask(r.value))
    && (r.None? ==> forall p :: 0 <= p <= 32 ==> w != Mask(p))
  }

  // ----- octets -----

  function Pow2(n: nat): nat {
    if n == 0 then 1 else 2 * Pow2(n - 1)
  }

  function BitsOf(v: nat, n: nat): (r: Bits)
    ensures |r| == n
  {
    if n == 0 then [] else BitsOf(v / 2, n - 1) + [v % 2 == 1]
  }

  function ValueOf(b: Bits): nat {
    if b == [] then 0 else 2 * ValueOf(b[..|b| - 1]) + if b[|b| - 1] then 1 else 0
  }

  lemma {:induction false} BitsOfValue(b: Bits)
    ensures ValueOf(b) < Pow2(|b|)
    ensures BitsOf(ValueOf(b), |b|) == b
  {
    if b != [] {
      BitsOfValue(b[..|b| - 1]);
      assert ValueOf(b) / 2 == ValueOf(b[..|b| - 1]);
    }
  }

  /** The bit test `octet & (1 << k) != 0`. */
  predicate TestBit(v: nat, k: nat) {
    if k == 0 then v % 2 == 1 else TestBit(v / 2, k - 1)
  }

  lemma {:induction false} TestBitIsBit(v: nat, k: nat, n: nat)
    requires k < n
    ensures TestBit(v, k) == BitsOf(v, n)[n - 1 - k]
    decreases k
  {
    if k > 0 {
      TestBitIsBit(v / 2, k - 1, n - 1);
    }
  }

  function Byte(v: Octet): Bits {
    BitsOf(v, 8)
  }

  function WordOf(octets: seq<Octet>): Word
    requires |octets| == 4
  {
    Byte(octets[0]) + Byte(octets[1]) + Byte(octets[2]) + Byte(octets[3])
  }

  lemma WordBit(octets: seq<Octet>, o: nat, k: nat)
    requires |octets| == 4 && o < 4 && k < 8
    ensures WordOf(octets)[8 * o + 7 - k] == TestBit(octets[o], k)
  {
    TestBitIsBit(octets[o], k, 8);
    hide BitsOf, TestBit;
    FourBytes(Byte(octets[0]), Byte(octets[1]), Byte(octets[2]), Byte(octets[3]), 7 - k);
  }

  lemma FourBytes(a: Bits, b: Bits, c: Bits, d: Bits, j: nat)
    requires |a| == 8 && |b| == 8 && |c| == 8 && |d| == 8 && j < 8
    ensures
      var w := a + b + c + d;
      w[j] == a[j] && w[8 + j] == b[j] && w[16 + j] == c[j] && w[24 + j] == d[j]
  {
  }

  // ----- the loop -----

  ghost predicate MaskSoFar(w: Word, i: nat, prefix: nat) {
    prefix <= i <= 32 && w[..i] == Ones(prefix) + Zeros(i - prefix)
  }

  lemma MaskNext(w: Word, i: nat, prefix: nat)
    requires i < 32 && MaskSoFar(w, i, prefix)
    ensures w[i] && prefix == i ==> MaskSoFar(w, i + 1, prefix + 1)
    ensures !w[i] ==> MaskSoFar(w, i + 1, prefix)
    ensures w[i] && prefix < i ==> forall p :: 0 <= p <= 32 ==> w != Mask(p)
  {
    assert w[..i + 1] == w[..i] + [w[i]];
    if w[i] && prefix < i {
      assert !w[..i][prefix];
    }
  }

  /** Some prefix length if and only if the mask is that many ones and then zeros. */
  method NetmaskToPrefix(octets: seq<Octet>) returns (r: Option<nat>)
    requires |octets| == 4
    ensures IsPrefixOf(WordOf(octets), r)
  {
    ghost var w: Word := WordOf(octets);
    hide WordOf, TestBit;
    var prefix: nat := 0;
    var seenZero := false;
    for o := 0 to 4
      invariant MaskSoFar(w, 8 * o, prefix)
      invariant seenZero <==> prefix < 8 * o
    {
      for bit := 8 downto 0
        invariant MaskSoFar(w, 8 * o + 8 - bit, prefix)
        invariant seenZero <==> prefix < 8 * o + 8 - bit
      {
        WordBit(octets, o, bit);
        MaskNext(w, 8 * o + 7 - bit, prefix);
        if TestBit(octets[o], bit) {
          if seenZero { return None; }
          prefix := prefix + 1;
        } else {
          seenZero := true;
        }
      }
    }
    assert w[..32] == w;
    return Some(prefix);
  }

  // ----- the trick -----

  function LeadingOnes(w: Bits): (n: nat)
    ensures n <= |w| && (forall i :: 0 <= i < n ==> w[i]) && (n < |w| ==> !w[n])
  {
    if w == [] || !w[0] then 0 else 1 + LeadingOnes(w[1..])
  }

  /** A shift by the whole width panics in a checked build, and otherwise takes the amount modulo it. */
  datatype Outcome = Panics | Returns(prefix: Option<nat>)

  function PrefixFromNetmask(w: Word, checked: bool): Outcome {
    var leading := LeadingOnes(w);
    if w == Zeros(32) then Returns(Some(leading))
    else if leading == 0 && checked then Panics
    else if w == ShiftLeft(Ones(32), (32 - leading) % 32) then Returns(Some(leading))
    else Returns(None)
  }

  lemma LeadingIs(w: Bits, p: nat)
    requires p <= |w| && (forall i :: 0 <= i < p ==> w[i]) && (p < |w| ==> !w[p])
    ensures LeadingOnes(w) == p
  {
  }

  lemma LeadingOfMask(p: nat)
    requires p <= 32
    ensures LeadingOnes(Mask(p)) == p
  {
    LeadingIs(Mask(p), p);
  }

  /** What the trick computes where it does not panic: the same as the loop. */
  lemma TrickIsMask(w: Word, checked: bool)
    requires !PrefixFromNetmask(w, checked).Panics?
    ensures IsPrefixOf(w, PrefixFromNetmask(w, checked).prefix)
  {
    hide LeadingOnes, Mask, ShiftLeft, Ones, Zeros;
    var n := LeadingOnes(w);
    if n > 0 {
      ShiftedOnes(n);
    }
    ZeroMask();
    MaskOfLeading(w);
  }

  lemma ZeroMask()
    ensures Mask(0) == Zeros(32) && ShiftLeft(Ones(32), 0) == Ones(32) && LeadingOnes(Zeros(32)) == 0
  {
    LeadingIs(Zeros(32), 0);
  }

  /** A word is a mask only of its leading ones. */
  lemma MaskOfLeading(w: Word)
    ensures forall p :: 0 <= p <= 32 && w == Mask(p) ==> p == LeadingOnes(w)
    ensures LeadingOnes(w) == 0 ==> w != Ones(32)
  {
    hide LeadingOnes;
    forall p: nat | p <= 32 && w == Mask(p)
      ensures p == LeadingOnes(w)
    {
      LeadingOfMask(p);
    }
    if LeadingOnes(w) == 0 {
      assert !w[0];
    }
  }

  /** The checked build panics exactly on a non-zero mask whose top bit is clear. */
  lemma PanicsIff(w: Word)
    ensures PrefixFromNetmask(w, true).Panics? <==> !w[0] && w != Zeros(32)
    ensures !PrefixFromNetmask(w, false).Panics?
  {
  }

  /** Only one answer meets the specification, so the loop and the trick agree wherever the trick returns. */
  lemma PrefixIsUnique(w: Word, r: Option<nat>, t: Option<nat>)
    requires IsPrefixOf(w, r) && IsPrefixOf(w, t)
    ensures r == t
  {
    if r.Some? && t.Some? {
      LeadingOfMask(r.value);
      LeadingOfMask(t.value);
    }
  }

  /** The mask 127.0.0.0: the checked build panics on it, the other one refuses it as the loop does. */
  lemma LoopbackMaskPanics()
    ensures PrefixFromNetmask(WordOf([127, 0, 0, 0]), true) == Panics
    ensures PrefixFromNetmask(WordOf([127, 0, 0, 0]), false) == Returns(None)
  {
    var w := WordOf([127, 0, 0, 0]);
    WordBit([127, 0, 0, 0], 0, 7);
    WordBit([127, 0, 0, 0], 0, 0);
    assert !TestBit(127, 7) by { assert !TestBit(15, 4); }
    assert !w[0] && w[7];
    PanicsIff(w);
    TrickIsMask(w, false);
    LeadingIs(w, 0);
    hide LeadingOnes;
    assert w != Zeros(32);
    assert w != Ones(32);
  }
}
