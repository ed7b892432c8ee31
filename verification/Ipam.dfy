/** Overlay address allocation (internal/coordinator/ipam.go). */
module Ipam {
  import opened Text
  import opened Net
  import opened Options

  /** The highest address of a block. */
  function Broadcast(cidr: Prefix): int { Mask(cidr.addr, cidr.bits) + Pow2(32 - cidr.bits) - 1 }

  /** A host address: strictly between the network and the broadcast address. */
  predicate IsHost(cidr: Prefix, a: Addr) {
    cidr.addr < INVALID && Mask(cidr.addr, cidr.bits) < a < Broadcast(cidr)
  }

  lemma HostsAreInside(cidr: Prefix, a: Addr)
    requires IsHost(cidr, a)
    ensures a < INVALID && Contains(cidr, a)
  {
    BroadcastFits(cidr);
    ContainsIff(cidr, a);
  }

  /** The hub's fixed address, one past the network address. */
  function HubIP(cidr: Prefix): Addr { Next(Mask(cidr.addr, cidr.bits)) }

  // ---------- setting host bits one by one ----------

  function Value(b: seq<int>): int
    requires |b| == 4
  {
    ((b[0] * 256 + b[1]) * 256 + b[2]) * 256 + b[3]
  }

  lemma OctetsValue(a: Addr)
    requires a < INVALID
    ensures Bytes(Octets(a)) && Value(Octets(a)) == a
  {
  }

  /** `x |= 1 << k` on one byte. */
  function SetBit(x: nat, k: nat): int { if High(x, k) % 2 == 1 then x else x + Pow2(k) }

  lemma {:induction false} ClearBit(v: nat, n: nat)
    requires Clear(v, n + 1) == v
    ensures High(v, n) % 2 == 0
    ensures Clear(v + Pow2(n), n) == v + Pow2(n)
  {
    if n > 0 {
      ClearBit(v / 2, n - 1);
      assert (v + Pow2(n)) / 2 == v / 2 + Pow2(n - 1);
    }
  }

  lemma {:induction false} HighOfSum(q: nat, x: nat, m: nat, k: nat)
    requires k <= m
    ensures Pow2(m) * q + x >= 0
    ensures High(Pow2(m) * q + x, k) == Pow2(m - k) * q + High(x, k)
  {
    assert Pow2(m) * q >= 0;
    if k > 0 {
      assert Pow2(m) * q == 2 * (Pow2(m - 1) * q);
      assert (Pow2(m) * q + x) / 2 == Pow2(m - 1) * q + x / 2;
      HighOfSum(q, x / 2, m - 1, k - 1);
    }
  }

  /** A bit of a byte is the same bit of the number whose last byte it is. */
  lemma BitOfByte(q: nat, x: nat, k: nat)
    requires k < 8
    ensures High(256 * q + x, k) % 2 == High(x, k) % 2
  {
    assert Pow2(8) == 256;
    HighOfSum(q, x, 8, k);
    var t, h := Pow2(7 - k) * q, High(x, k);
    assert Pow2(8 - k) * q == 2 * t by { assert Pow2(8 - k) == 2 * Pow2(7 - k); }
    assert High(256 * q + x, k) == 2 * t + h;
    Parity(t, h);
  }

  lemma Parity(t: int, h: int)
    ensures (2 * t + h) % 2 == h % 2
  {
  }

  lemma {:induction false} HighOfSmall(x: nat, n: nat)
    requires x < Pow2(n)
    ensures High(x, n) == 0
  {
    if n > 0 {
      HighOfSmall(x / 2, n - 1);
    }
  }

  /** Setting a clear bit stays within the width. */
  lemma {:induction false} SetBitFits(x: nat, k: nat, width: nat)
    requires k < width && x < Pow2(width) && High(x, k) % 2 == 0
    ensures x + Pow2(k) < Pow2(width)
  {
    if k > 0 {
      SetBitFits(x / 2, k - 1, width - 1);
    }
  }

  ghost predicate Bytes(b: seq<int>) { |b| == 4 && forall i :: 0 <= i < 4 ==> 0 <= b[i] < 256 }

  /** The number formed by bytes 0..k: the value with the later bytes shifted out. */
  lemma HighBytes(b: seq<int>, k: nat)
    requires Bytes(b) && k < 4
    ensures Value(b) >= 0
    ensures High(Value(b), 8 * (3 - k)) ==
      if k == 0 then b[0] else if k == 1 then b[0] * 256 + b[1]
      else if k == 2 then (b[0] * 256 + b[1]) * 256 + b[2] else Value(b)
  {
    var p1 := b[0] * 256 + b[1];
    var p2 := p1 * 256 + b[2];
    assert High(Value(b), 8) == p2 by { ShiftByte(p2, b[3]); }
    assert High(Value(b), 16) == p1 by { HighAdd(Value(b), 8, 8); ShiftByte(p1, b[2]); }
    assert High(Value(b), 24) == b[0] by { HighAdd(Value(b), 16, 8); ShiftByte(b[0], b[1]); }
  }

  lemma ShiftByte(q: nat, x: nat)
    requires x < 256
    ensures High(256 * q + x, 8) == q
  {
    assert Pow2(8) == 256;
    HighOfSum(q, x, 8, 8);
    HighOfSmall(x, 8);
  }

  /** When the last 32 - i bits of an address are clear, so is bit i in its byte. */
  lemma BitIsClear(b: seq<int>, i: nat)
    requires Bytes(b) && i < 32 && Value(b) >= 0 && Clear(Value(b), 32 - i) == Value(b)
    ensures High(b[i / 8], 7 - i % 8) % 2 == 0
  {
    var k, j := i / 8, 7 - i % 8;
    var v := Value(b);
    ClearBit(v, 31 - i);
    HighAdd(v, 8 * (3 - k), j);
    HighBytes(b, k);
    var q := if k == 0 then 0 else if k == 1 then b[0] else if k == 2 then b[0] * 256 + b[1]
             else (b[0] * 256 + b[1]) * 256 + b[2];
    BitOfByte(q, b[k], j);
    assert High(v, 31 - i) == High(256 * q + b[k], j);
  }

  lemma BitWeight(k: nat, j: nat)
    requires k < 4
    ensures Pow2(8 * (3 - k) + j) == Pow2(j) * if k == 0 then 0x100_0000 else if k == 1 then 0x1_0000 else if k == 2 then 256 else 1
  {
    assert Pow2(8) == 256 && Pow2(16) == 0x1_0000 && Pow2(24) == 0x100_0000;
    Pow2Add(8 * (3 - k), j);
  }

  /** Setting the highest clear bit i adds its weight to the whole address. */
  lemma SetBitStep(b: seq<int>, i: nat)
    requires Bytes(b) && i < 32 && Value(b) >= 0 && Clear(Value(b), 32 - i) == Value(b)
    ensures var b' := b[i / 8 := SetBit(b[i / 8], 7 - i % 8)];
      && Bytes(b')
      && Value(b') == Value(b) + Pow2(31 - i)
      && Clear(Value(b) + Pow2(31 - i), 31 - i) == Value(b) + Pow2(31 - i)
  {
    var k, j := i / 8, 7 - i % 8;
    ClearBit(Value(b), 31 - i);
    BitIsClear(b, i);
    assert Pow2(8) == 256;
    SetBitFits(b[k], j, 8);
    BitWeight(k, j);
    assert 31 - i == 8 * (3 - k) + j;
  }

  lemma BroadcastFits(cidr: Prefix)
    requires cidr.addr < INVALID
    ensures Broadcast(cidr) < INVALID
  {
    var n := 32 - cidr.bits;
    Pow2At32();
    ClearFits(cidr.addr, n, 32 - n);
    assert n + (32 - n) == 32;
  }

  lemma {:induction false} ClearFits(a: nat, n: nat, m: nat)
    requires a < Pow2(n + m)
    ensures Clear(a, n) + Pow2(n) <= Pow2(n + m)
  {
    if n > 0 {
      ClearFits(a / 2, n - 1, m);
    }
  }

  /** `x |= 1 << k` for one bit of an address given as four bytes. */
  method SetAddressBit(b: seq<int>, i: nat, ghost v: nat) returns (r: seq<int>)
    requires Bytes(b) && i < 32 && Value(b) == v && Clear(v, 32 - i) == v
    ensures Bytes(r) && Value(r) == v + Pow2(31 - i) && Clear(v + Pow2(31 - i), 31 - i) == v + Pow2(31 - i)
  {
    SetBitStep(b, i);
    r := b[i / 8 := SetBit(b[i / 8], 7 - i % 8)];
  }

  lemma NetworkOctets(p: Prefix)
    requires p.addr < INVALID
    ensures var network := Mask(p.addr, p.bits);
      Bytes(Octets(network)) && Value(Octets(network)) == network && Clear(network, 32 - p.bits) == network
  {
    OctetsValue(Mask(p.addr, p.bits));
    MaskTwice(p.addr, p.bits);
  }

  /** broadcastAddr: sets every host bit, most significant first. */
  method BroadcastAddr(p: Prefix) returns (a: Addr)
    requires p.addr < INVALID
    ensures a == Broadcast(p) && a < INVALID
  {
    var network := Mask(p.addr, p.bits);
    var b := Octets(network);
    NetworkOctets(p);
    ghost var v: nat := network;
    for i := p.bits to 32
      invariant Bytes(b) && Value(b) == v
      invariant v + Pow2(32 - i) == network + Pow2(32 - p.bits)
      invariant Clear(v, 32 - i) == v
    {
      b := SetAddressBit(b, i, v);
      assert Pow2(32 - i) == 2 * Pow2(31 - i);
      v := v + Pow2(31 - i);
    }
    BroadcastFits(p);
    a := Value(b);
  }

  /** The least free address from a upwards. */
  function FreeFrom(cidr: Prefix, used: set<Addr>, a: Addr): (r: Option<Addr>)
    requires cidr.addr < INVALID
    decreases INVALID - a
  {
    if a >= Broadcast(cidr) || a == INVALID then None
    else if a !in used then Some(a)
    else FreeFrom(cidr, used, a + 1)
  }

  function LeastFree(cidr: Prefix, used: set<Addr>): Option<Addr> {
    if cidr.addr == INVALID then None else FreeFrom(cidr, used, HubIP(cidr))
  }

  lemma {:induction false} FreeFromIsLeast(cidr: Prefix, used: set<Addr>, a: Addr)
    requires cidr.addr < INVALID && Mask(cidr.addr, cidr.bits) < a
    ensures var r := FreeFrom(cidr, used, a);
      && (r.Some? ==> a <= r.value && IsHost(cidr, r.value) && r.value !in used)
      && (forall h: Addr :: a <= h && IsHost(cidr, h) && (r.Some? ==> h < r.value) ==> h in used)
    decreases INVALID - a
  {
    BroadcastFits(cidr);
    if a < Broadcast(cidr) && a in used {
      FreeFromIsLeast(cidr, used, a + 1);
    }
  }

  /**
   * The allocated address is the least unused host; there is none exactly when
   * every host is in use (always, for /31 and /32).
   */
  lemma LeastFreeIsLeast(cidr: Prefix, used: set<Addr>)
    ensures var r := LeastFree(cidr, used);
      && (r.Some? ==> IsHost(cidr, r.value) && r.value !in used)
      && (r.Some? ==> forall h: Addr :: IsHost(cidr, h) && h < r.value ==> h in used)
      && (r.None? <==> forall h: Addr :: IsHost(cidr, h) ==> h in used)
  {
    if cidr.addr < INVALID {
      FreeFromIsLeast(cidr, used, HubIP(cidr));
    }
  }

  lemma FreeFromStep(cidr: Prefix, used: set<Addr>, a: Addr)
    requires cidr.addr < INVALID && a < Broadcast(cidr) && a in used
    ensures a < INVALID && FreeFrom(cidr, used, a) == FreeFrom(cidr, used, Next(a))
  {
    BroadcastFits(cidr);
  }

  /** Between the network and the broadcast address, staying in the block is staying below the broadcast. */
  lemma InBlock(cidr: Prefix, a: Addr)
    requires cidr.addr < INVALID && Mask(cidr.addr, cidr.bits) < a <= Broadcast(cidr)
    ensures Contains(Masked(cidr), a) && a < INVALID
  {
    BroadcastFits(cidr);
    ContainsIff(cidr, a);
    MaskedContains(cidr, a);
  }

  lemma MaskedBroadcast(cidr: Prefix)
    ensures Broadcast(Masked(cidr)) == Broadcast(cidr) && Masked(cidr).addr <= cidr.addr
  {
    MaskTwice(cidr.addr, cidr.bits);
  }

  /** AllocateIP walks the block from the first host to the broadcast address. */
  method AllocateIP(cidr: Prefix, used: set<Addr>) returns (r: Option<Addr>)
    ensures r == LeastFree(cidr, used)
  {
    if cidr.addr == INVALID {
      return None;
    }
    var network := Masked(cidr);
    MaskedBroadcast(cidr);
    var broadcast := BroadcastAddr(network);
    var addr := Next(network.addr);
    while Contains(network, addr) && addr != broadcast
      invariant network.addr < addr && addr <= broadcast + 1
      invariant addr <= broadcast || network.addr == broadcast
      invariant LeastFree(cidr, used) == FreeFrom(cidr, used, addr)
      decreases INVALID - addr
    {
      assert addr < broadcast by { InsideMeansBelow(cidr, addr); }
      if addr !in used {
        return Some(addr);
      }
      FreeFromStep(cidr, used, addr);
      addr := Next(addr);
    }
    if addr < broadcast {
      InBlock(cidr, addr);
    }
    return None;
  }

  lemma InsideMeansBelow(cidr: Prefix, a: Addr)
    requires cidr.addr < INVALID && Contains(Masked(cidr), a)
    ensures a <= Broadcast(cidr)
  {
    MaskedContains(cidr, a);
    ContainsIff(cidr, a);
  }
}
