/**
 Expansion of an IPv4 block into its addresses by mask arithmetic on 32-bit words, which
 are natural numbers below 2^32 with the wrapping written out. `addr` and `prefix` are
 what parsing the two sides of the slash gave, if anything.
 */
module Cidr {
  import opened Basics

  const WordBits: nat := 32

  function Pow2(n: nat): (r: nat)
    ensures r > 0
  {
    if n == 0 then 1 else 2 * Pow2(n - 1)
  }

  const WordSize: nat := 0x1_0000_0000

  type Word = x: nat | x < WordSize

  // ----- the machine operations -----

  /** Bitwise conjunction of the lowest `width` bits. */
  function BitAnd(a: nat, b: nat, width: nat): nat {
    if width == 0 then 0
    else 2 * BitAnd(a / 2, b / 2, width - 1) + (if a % 2 == 1 && b % 2 == 1 then 1 else 0)
  }

  function Truncate(n: nat): Word { n % WordSize }

  function WrappingSub(a: Word, b: Word): Word { (a + WordSize - b) % WordSize }

  function WrappingAdd(a: Word, b: Word): Word { (a + b) % WordSize }

  function BitNot(a: Word): Word { WordSize - 1 - a }

  // ----- the expansion -----

  function HostCount(prefix: nat): nat
    requires prefix <= WordBits
  {
    Pow2(WordBits - prefix)
  }

  function Network(base: Word, prefix: nat): nat
    requires prefix <= WordBits
  {
    BitAnd(base, BitNot(WrappingSub(Truncate(HostCount(prefix)), 1)), WordBits)
  }

  function Addresses(network: Word, count: nat): (r: seq<Word>)
    ensures |r| == count
  {
    if count == 0 then [] else Addresses(network, count - 1) + [WrappingAdd(network, Truncate(count - 1))]
  }

  function ExpandCidr(addr: Option<Word>, prefix: Option<nat>, maxHosts: nat): seq<Word> {
    if addr.None? || prefix.None? || prefix.value > WordBits then []
    else if HostCount(prefix.value) > maxHosts then []
    else Addresses(Truncate(Network(addr.value, prefix.value)), HostCount(prefix.value))
  }

  // ----- what the mask does -----

  lemma {:induction false} Pow2Monotone(a: nat, b: nat)
    requires a <= b
    ensures Pow2(a) <= Pow2(b)
  {
    if a < b { Pow2Monotone(a, b - 1); }
  }

  lemma WordSizeIsPow2()
    ensures Pow2(WordBits) == WordSize
  {
    assert Pow2(4) == 16;
    assert Pow2(8) == 256;
    assert Pow2(12) == 4096;
    assert Pow2(16) == 0x1_0000;
    assert Pow2(20) == 0x10_0000;
    assert Pow2(24) == 0x100_0000;
    assert Pow2(28) == 0x1000_0000;
  }

  lemma {:induction false} AndAllOnes(x: nat, width: nat)
    requires x < Pow2(width)
    ensures BitAnd(x, Pow2(width) - 1, width) == x
  {
    if width > 0 {
      var half := Pow2(width - 1);
      assert Pow2(width) == 2 * half;
      OddHalves(half);
      AndAllOnes(x / 2, width - 1);
      AndStep(x, 2 * half - 1, width);
      hide BitAnd, Pow2;
      assert BitAnd(x, 2 * half - 1, width) == 2 * (x / 2) + x % 2;
    }
  }

  lemma OddHalves(half: nat)
    requires half > 0
    ensures (2 * half - 1) / 2 == half - 1 && (2 * half - 1) % 2 == 1
  {
  }

  lemma AndStep(a: nat, b: nat, width: nat)
    requires width > 0
    ensures BitAnd(a, b, width) == 2 * BitAnd(a / 2, b / 2, width - 1) + (if a % 2 == 1 && b % 2 == 1 then 1 else 0)
  {
  }

  /** `x` without its lowest `low` bits, in place and shifted out. */
  ghost function Cleared(x: nat, low: nat): nat { if low == 0 then x else 2 * Cleared(x / 2, low - 1) }

  ghost function Shifted(x: nat, low: nat): nat { if low == 0 then x else Shifted(x / 2, low - 1) }

  /** Conjunction with the complement of the low `low` bits clears exactly those bits. */
  lemma {:induction false} AndClearsLowBits(x: nat, low: nat, width: nat)
    requires low <= width && x < Pow2(width)
    ensures Pow2(low) <= Pow2(width)
    ensures BitAnd(x, Pow2(width) - Pow2(low), width) == Cleared(x, low)
    ensures Cleared(x, low) + Pow2(low) <= Pow2(width)
    decreases width
  {
    Pow2Monotone(low, width);
    if low == 0 {
      AndAllOnes(x, width);
    } else {
      AndClearsLowBits(x / 2, low - 1, width - 1);
      var mask := Pow2(width) - Pow2(low);
      assert mask / 2 == Pow2(width - 1) - Pow2(low - 1) && mask % 2 == 0;
    }
  }

  /** Two numbers agree above the low bits exactly when one is in the other's block. */
  lemma {:induction false} SameAbove(x: nat, a: nat, low: nat)
    ensures Shifted(a, low) == Shifted(x, low) <==> Cleared(x, low) <= a < Cleared(x, low) + Pow2(low)
    decreases low
  {
    if low > 0 { SameAbove(x / 2, a / 2, low - 1); }
  }

  /** The wrapped mask, prefix 0 included, gives the first address of the block. */
  lemma NetworkIsBlockStart(base: Word, prefix: nat)
    requires prefix <= WordBits
    ensures Network(base, prefix) == Cleared(base, WordBits - prefix)
    ensures Network(base, prefix) + HostCount(prefix) <= WordSize
  {
    var low := WordBits - prefix;
    WordSizeIsPow2();
    Pow2Monotone(low, WordBits);
    AndClearsLowBits(base, low, WordBits);
    MaskWraps(HostCount(prefix));
  }

  lemma MaskWraps(count: nat)
    requires 0 < count <= WordSize
    ensures BitNot(WrappingSub(Truncate(count), 1)) == WordSize - count
  {
  }

  // ----- the result -----

  ghost predicate StrictlyAscending(s: seq<Word>) { forall i, j :: 0 <= i < j < |s| ==> s[i] < s[j] }

  /** Equal in the first `prefix` bits. */
  ghost predicate SamePrefix(a: Word, b: Word, prefix: nat)
    requires prefix <= WordBits
  {
    Shifted(a, WordBits - prefix) == Shifted(b, WordBits - prefix)
  }

  lemma {:induction false} AddressAt(network: Word, count: nat, i: nat)
    requires network + count <= WordSize && i < count
    ensures Addresses(network, count)[i] == network + i
  {
    if i < count - 1 { AddressAt(network, count - 1, i); }
  }

  /** The addresses from the network on, as many as the count, are the numbers in between. */
  lemma AddressesExact(network: Word, count: nat)
    requires network + count <= WordSize
    ensures var r := Addresses(network, count);
            StrictlyAscending(r) && forall a: Word :: a in r <==> network <= a < network + count
  {
    var r := Addresses(network, count);
    hide Addresses;
    forall i | 0 <= i < |r| ensures r[i] == network + i { AddressAt(network, count, i); }
    forall a: Word ensures a in r <==> network <= a < network + count {
      if network <= a < network + count { assert r[a - network] == a; }
    }
  }

  lemma BlockExact(base: Word, p: nat)
    requires p <= WordBits
    ensures var r := Addresses(Truncate(Network(base, p)), HostCount(p));
            StrictlyAscending(r) && forall a: Word :: a in r <==> SamePrefix(a, base, p)
  {
    hide Network, Addresses, Shifted, Cleared, StrictlyAscending, Pow2;
    NetworkIsBlockStart(base, p);
    var n, count := Network(base, p), HostCount(p);
    assert Truncate(n) == n;
    AddressesExact(n, count);
    var r := Addresses(Truncate(n), count);
    forall a: Word ensures a in r <==> SamePrefix(a, base, p) {
      SameAbove(base, a, WordBits - p);
    }
  }

  /**
   For every address, prefix and limit: a malformed or too large block gives nothing;
   otherwise exactly the addresses that share the first `prefix` bits, each once, ascending.
   */
  lemma ExpansionIsBlock(addr: Option<Word>, prefix: Option<nat>, maxHosts: nat)
    ensures var r := ExpandCidr(addr, prefix, maxHosts);
            if addr.None? || prefix.None? || prefix.value > WordBits || HostCount(prefix.value) > maxHosts then r == []
            else StrictlyAscending(r) && forall a: Word :: a in r <==> SamePrefix(a, addr.value, prefix.value)
  {
    hide Network, Addresses, SamePrefix, StrictlyAscending, HostCount;
    if addr.Some? && prefix.Some? && prefix.value <= WordBits { BlockExact(addr.value, prefix.value); }
  }
}
