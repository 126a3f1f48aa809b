/** Addresses and masks the way the Go `net` package computes with them, bit by bit, and the
    numeric ranges that CIDR notation stands for (section 3.1 of RFC 4632). */
module Cidr {
  import opened Basics

  /** Most significant bit first. */
  type Bits = seq<bool>

  function Pow2(n: nat): (p: nat)
    ensures p > 0
  {
    if n == 0 then 1 else 2 * Pow2(n - 1)
  }

  function Val(b: Bits): nat {
    if b == [] then 0 else (if b[0] then Pow2(|b| - 1) else 0) + Val(b[1..])
  }

  function And(a: Bits, m: Bits): (r: Bits)
    requires |a| == |m|
    ensures |r| == |a| && forall i | 0 <= i < |a| :: r[i] == (a[i] && m[i])
  {
    seq(|a|, i requires 0 <= i < |a| => a[i] && m[i])
  }

  function CidrMask(ones: nat, width: nat): (m: Bits)
    ensures |m| == width && forall i | 0 <= i < width :: m[i] == (i < ones)
  {
    seq(width, i => i < ones)
  }

  /** An address in its sixteen-byte form, which is how `net.ParseIP` returns it. */
  type Address = b: Bits | |b| == 128 witness seq(128, _ => false)

  /** `To4`: the last four bytes of an IPv4-mapped address. */
  function To4(ip: Bits): Option<Bits> {
    if |ip| == 32 then Some(ip)
    else if |ip| == 128 && (forall i | 0 <= i < 80 :: !ip[i]) && (forall i | 80 <= i < 96 :: ip[i])
    then Some(ip[96..])
    else None
  }

  function Shortest(ip: Bits): Bits {
    var four := To4(ip);
    if four.Some? then four.value else ip
  }

  datatype IPNet = IPNet(ip: Bits, mask: Bits)

  datatype Network = Network(number: Bits, mask: Bits)

  /** `networkNumberAndMask`. */
  function NetworkNumberAndMask(n: IPNet): Option<Network> {
    var ip := Shortest(n.ip);
    if |ip| != 32 && |ip| != 128 then None
    else if |n.mask| == 32 then
      if |ip| != 32 then None else Some(Network(ip, n.mask))
    else if |n.mask| == 128 then
      Some(Network(ip, if |ip| == 32 then n.mask[96..] else n.mask))
    else None
  }

  /** `IPNet.Contains`. */
  predicate Contains(n: IPNet, ip: Bits) {
    var net, x := NetworkNumberAndMask(n), Shortest(ip);
    && net.Some?
    && |x| == |net.value.number| == |net.value.mask|
    && And(net.value.number, net.value.mask) == And(x, net.value.mask)
  }

  // ---------------------------------------------------------------- ranges

  /** The addresses of one family from `lo` to `hi`. */
  datatype Range = Range(width: nat, lo: nat, hi: nat)

  predicate InRange(r: Range, ip: Bits) {
    |Shortest(ip)| == r.width && r.lo <= Val(Shortest(ip)) <= r.hi
  }

  lemma {:induction false} ValBelow(b: Bits)
    ensures Val(b) < Pow2(|b|)
  {
    if b != [] {
      ValBelow(b[1..]);
    }
  }

  lemma AndTail(a: Bits, m: Bits)
    requires |a| == |m| > 0
    ensures And(a, m)[1..] == And(a[1..], m[1..])
    ensures Val(And(a, m)) == (if a[0] && m[0] then Pow2(|a| - 1) else 0) + Val(And(a[1..], m[1..]))
  {
    assert And(a, m)[1..] == And(a[1..], m[1..]);
  }

  lemma MaskTail(ones: nat, width: nat)
    requires 0 < ones <= width
    ensures CidrMask(ones, width)[1..] == CidrMask(ones - 1, width - 1)
  {
  }

  lemma MaskedByNothing(a: Bits)
    ensures Val(And(a, CidrMask(0, |a|))) == 0
  {
    if a != [] {
      AndTail(a, CidrMask(0, |a|));
      assert CidrMask(0, |a|)[1..] == CidrMask(0, |a[1..]|);
      MaskedByNothing(a[1..]);
    }
  }

  /** The block of a prefix stays below the end of the address space. */
  lemma {:induction false} BlockFits(a: Bits, ones: nat)
    requires ones <= |a|
    ensures Val(And(a, CidrMask(ones, |a|))) + Pow2(|a| - ones) <= Pow2(|a|)
  {
    if ones == 0 {
      MaskedByNothing(a);
    } else {
      AndTail(a, CidrMask(ones, |a|));
      MaskTail(ones, |a|);
      BlockFits(a[1..], ones - 1);
    }
  }

  /** Agreeing under a mask of `n` leading ones is lying in the block of 2^(width-n) addresses
      that starts at the masked address. */
  lemma {:induction false} MaskedEqualIsRange(a: Bits, x: Bits, ones: nat)
    requires |a| == |x| && ones <= |a|
    ensures AgreeUnder(a, x, ones) <==> InBlock(a, x, ones)
  {
    if ones == 0 {
      MaskedByNothing(a);
      ValBelow(x);
      assert And(a, CidrMask(0, |a|)) == And(x, CidrMask(0, |a|));
    } else {
      MaskedEqualIsRange(a[1..], x[1..], ones - 1);
      MaskTail(ones, |a|);
      EqualByTail(a, x, CidrMask(ones, |a|));
      BlockByTail(a, x, ones);
    }
  }

  ghost predicate AgreeUnder(a: Bits, x: Bits, ones: nat)
    requires |a| == |x|
  {
    And(a, CidrMask(ones, |a|)) == And(x, CidrMask(ones, |a|))
  }

  ghost predicate InBlock(a: Bits, x: Bits, ones: nat)
    requires ones <= |a|
  {
    var base := Val(And(a, CidrMask(ones, |a|)));
    base <= Val(x) <= base + Pow2(|a| - ones) - 1
  }

  lemma BlockByTail(a: Bits, x: Bits, ones: nat)
    requires |a| == |x| && 0 < ones <= |a|
    ensures InBlock(a, x, ones) <==> a[0] == x[0] && InBlock(a[1..], x[1..], ones - 1)
  {
    AndTail(a, CidrMask(ones, |a|));
    MaskTail(ones, |a|);
    BlockFits(a[1..], ones - 1);
    ValBelow(x[1..]);
    var base := Val(And(a[1..], CidrMask(ones - 1, |a| - 1)));
    TopBitDecides(a[0], x[0], Pow2(|a| - 1), base, Val(x[1..]), Pow2(|a| - ones));
  }

  /** With a top bit of weight `p`, a block below `p` can only be met under the same top bit. */
  lemma TopBitDecides(b: bool, c: bool, p: nat, lo: nat, v: nat, size: nat)
    requires v < p && lo + size <= p && size > 0
    ensures var base := (if b then p else 0) + lo;
            base <= (if c then p else 0) + v <= base + size - 1 <==> b == c && lo <= v <= lo + size - 1
  {
  }

  lemma EqualByTail(a: Bits, x: Bits, m: Bits)
    requires |a| == |x| == |m| > 0 && m[0]
    ensures And(a, m) == And(x, m) <==> a[0] == x[0] && And(a[1..], m[1..]) == And(x[1..], m[1..])
  {
    AndTail(a, m);
    AndTail(x, m);
    assert And(a, m) == [And(a, m)[0]] + And(a, m)[1..];
    assert And(x, m) == [And(x, m)[0]] + And(x, m)[1..];
  }

  /** What `net.ParseCIDR` found in a text: an address of either family and a prefix length. */
  datatype RawPrefix = Prefix(address: Bits, ones: nat)

  type Prefix = p: RawPrefix | (|p.address| == 32 || |p.address| == 128) && p.ones <= |p.address|
    witness Prefix(seq(32, _ => false), 0)

  /** The network that `net.ParseCIDR` returns. */
  function PrefixNet(p: Prefix): IPNet {
    var m := CidrMask(p.ones, |p.address|);
    IPNet(And(p.address, m), m)
  }

  /** The network that a bare address becomes: a single-address block of its own family. */
  function HostNet(ip: Address): IPNet {
    var bits := if To4(ip).Some? then 32 else 128;
    IPNet(ip, CidrMask(bits, bits))
  }

  /** The addresses a prefix stands for: those of its masked address's own family that agree
      with it. An IPv4-mapped network covers IPv4 addresses. */
  function PrefixRange(p: Prefix): Range {
    var base := Shortest(PrefixNet(p).ip);
    Range(|base|, Val(base), Val(base) + Pow2(|p.address| - p.ones) - 1)
  }

  function HostRange(ip: Address): Range {
    Range(|Shortest(ip)|, Val(Shortest(ip)), Val(Shortest(ip)))
  }

  lemma MappedPrefixIsLong(p: Prefix)
    requires |p.address| == 128 && To4(PrefixNet(p).ip).Some?
    ensures p.ones >= 96 && CidrMask(p.ones, 128)[96..] == CidrMask(p.ones - 96, 32)
  {
    assert PrefixNet(p).ip[95];
  }

  lemma AndTwice(a: Bits, m: Bits)
    requires |a| == |m|
    ensures And(And(a, m), m) == And(a, m)
  {
  }

  /** `Contains` on a parsed prefix is membership in its range. */
  lemma PrefixContains(p: Prefix, ip: Bits)
    requires |ip| == 32 || |ip| == 128
    ensures Contains(PrefixNet(p), ip) <==> InRange(PrefixRange(p), ip)
  {
    var n, x := PrefixNet(p), Shortest(ip);
    var base, m := Shortest(n.ip), CidrMask(p.ones, |p.address|);
    AndTwice(p.address, m);
    if |p.address| == 128 && |base| == 32 {
      MappedPrefixIsLong(p);
      var m4 := CidrMask(p.ones - 96, 32);
      assert NetworkNumberAndMask(n) == Some(Network(base, m4));
      assert And(base, m4) == base;
      if |x| == 32 {
        MaskedEqualIsRange(base, x, p.ones - 96);
      }
    } else {
      assert NetworkNumberAndMask(n) == Some(Network(base, m));
      if |x| == |base| {
        MaskedEqualIsRange(base, x, p.ones);
      }
    }
  }

  /** `Contains` on a bare address is equality with it. */
  lemma HostContains(host: Address, ip: Bits)
    requires |ip| == 32 || |ip| == 128
    ensures Contains(HostNet(host), ip) <==> InRange(HostRange(host), ip)
  {
    var base, x := Shortest(host), Shortest(ip);
    var m := CidrMask(|base|, |base|);
    assert NetworkNumberAndMask(HostNet(host)) == Some(Network(base, m));
    assert And(base, m) == base;
    if |x| == |base| {
      MaskedEqualIsRange(base, x, |base|);
    }
  }

  // ---------------------------------------------------------------- bit by bit

  /** Eighty zeros and sixteen ones (section 2.5.5.2 of RFC 4291). */
  predicate IsMapped(ip: Address) {
    forall i | 0 <= i < 96 :: ip[i] == (80 <= i)
  }

  /** The address begins with the bits that the prefix fixes. An IPv4 prefix covers the mapped
      addresses alone, and an IPv6 prefix covers those only if it fixes the mapped form too. */
  ghost predicate Covers(p: Prefix, ip: Address) {
    if |p.address| == 32 then IsMapped(ip) && forall i | 0 <= i < p.ones :: ip[96 + i] == p.address[i]
    else (forall i | 0 <= i < p.ones :: ip[i] == p.address[i]) && (IsMapped(ip) ==> 96 <= p.ones)
  }

  /** Agreeing under a mask is agreeing bit by bit as far as the mask goes. */
  lemma AgreeUnderIff(a: Bits, x: Bits, ones: nat)
    requires |a| == |x| && ones <= |a|
    ensures AgreeUnder(a, x, ones) <==> forall i | 0 <= i < ones :: a[i] == x[i]
  {
    var m := CidrMask(ones, |a|);
    if AgreeUnder(a, x, ones) {
      forall i | 0 <= i < ones ensures a[i] == x[i] {
        assert And(a, m)[i] == And(x, m)[i];
      }
    }
  }

  lemma MappedIff(ip: Address)
    ensures To4(ip).Some? <==> IsMapped(ip)
    ensures To4(ip).Some? ==> To4(ip).value == ip[96..]
  {
    assert To4(ip).Some? <==> (forall i | 0 <= i < 80 :: !ip[i]) && (forall i | 80 <= i < 96 :: ip[i]);
  }

  lemma ShortPrefixCovers(p: Prefix, ip: Address)
    requires |p.address| == 32
    ensures Contains(PrefixNet(p), ip) <==> Covers(p, ip)
  {
    MappedIff(ip);
    var m := CidrMask(p.ones, 32);
    var base := And(p.address, m);
    AndTwice(p.address, m);
    assert NetworkNumberAndMask(PrefixNet(p)) == Some(Network(base, m));
    if IsMapped(ip) {
      AgreeUnderIff(p.address, ip[96..], p.ones);
    }
  }

  lemma LongPrefixCovers(p: Prefix, ip: Address)
    requires |p.address| == 128
    ensures Contains(PrefixNet(p), ip) <==> Covers(p, ip)
  {
    MappedIff(ip);
    var m := CidrMask(p.ones, 128);
    var base := And(p.address, m);
    MappedIff(base);
    AndTwice(p.address, m);
    if IsMapped(base) {
      MappedPrefixIsLong(p);
      MappedPrefixCovers(p, ip);
    } else {
      assert NetworkNumberAndMask(PrefixNet(p)) == Some(Network(base, m));
      if IsMapped(ip) {
        assert Covers(p, ip) ==> forall i | 0 <= i < 96 :: base[i] == ip[i];
      } else {
        AgreeUnderIff(p.address, ip, p.ones);
      }
    }
  }

  lemma MappedPrefixCovers(p: Prefix, ip: Address)
    requires |p.address| == 128 && IsMapped(And(p.address, CidrMask(p.ones, 128))) && p.ones >= 96
    ensures Contains(PrefixNet(p), ip) <==> Covers(p, ip)
  {
    MappedIff(ip);
    var base := And(p.address, CidrMask(p.ones, 128));
    MappedIff(base);
    var ones := p.ones - 96;
    var m4 := CidrMask(ones, 32);
    assert CidrMask(p.ones, 128)[96..] == m4;
    assert NetworkNumberAndMask(PrefixNet(p)) == Some(Network(base[96..], m4));
    assert forall i | 0 <= i < p.ones :: base[i] == p.address[i];
    if IsMapped(ip) {
      AgreeUnderIff(base[96..], ip[96..], ones);
      assert And(base[96..], m4) == base[96..];
      if Contains(PrefixNet(p), ip) {
        forall i | 0 <= i < p.ones ensures ip[i] == p.address[i] {
          assert i >= 96 ==> ip[i] == ip[96..][i - 96] && base[i] == base[96..][i - 96];
        }
      }
    }
  }

  /** `Contains` on a parsed prefix, without a mask or a number. */
  lemma PrefixCovers(p: Prefix, ip: Address)
    ensures Contains(PrefixNet(p), ip) <==> Covers(p, ip)
  {
    if |p.address| == 32 {
      ShortPrefixCovers(p, ip);
    } else {
      LongPrefixCovers(p, ip);
    }
  }

  /** And on a bare address. */
  lemma HostIsItself(host: Address, ip: Address)
    ensures Contains(HostNet(host), ip) <==> ip == host
  {
    MappedIff(host);
    MappedIff(ip);
    var base, x := Shortest(host), Shortest(ip);
    var m := CidrMask(|base|, |base|);
    assert NetworkNumberAndMask(HostNet(host)) == Some(Network(base, m));
    if |x| == |base| {
      assert And(base, m) == base && And(x, m) == x;
      if x == base && IsMapped(host) {
        assert host == host[..96] + host[96..] && ip == ip[..96] + ip[96..];
        assert host[..96] == ip[..96];
      }
    }
  }
}
