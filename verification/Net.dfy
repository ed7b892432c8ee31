/** IPv4 addresses, prefixes and their texts, as net/netip provides them. */
module Net {
  import opened Text

  /** 2^32: one past the last address; it stands for netip's zero Addr ("invalid IP"). */
  const INVALID := 0x1_0000_0000

  type Addr = a: int | 0 <= a <= INVALID

  type Bits = b: int | 0 <= b <= 32

  datatype Prefix = Prefix(addr: Addr, bits: Bits)

  function Pow2(n: nat): (p: int)
    ensures p >= 1
  {
    if n == 0 then 1 else 2 * Pow2(n - 1)
  }

  /** The leading bits of a, without the last n. */
  function High(a: nat, n: nat): nat {
    if n == 0 then a else High(a / 2, n - 1)
  }

  /** a with its last n bits cleared. */
  function Clear(a: nat, n: nat): (m: nat)
    ensures m <= a < m + Pow2(n)
  {
    if n == 0 then a else 2 * Clear(a / 2, n - 1)
  }

  /** The network address of a block of length `bits` around a. */
  function Mask(a: Addr, bits: Bits): Addr { Clear(a, 32 - bits) }

  function Masked(p: Prefix): Prefix { Prefix(Mask(p.addr, p.bits), p.bits) }

  /** Prefix.Contains: the first `bits` bits agree. */
  predicate Contains(p: Prefix, a: Addr) {
    a < INVALID && p.addr < INVALID && High(a, 32 - p.bits) == High(p.addr, 32 - p.bits)
  }

  /** Addr.Next: one past the last address is no address at all. */
  function Next(a: Addr): Addr { if a < INVALID then a + 1 else INVALID }

  /** Prefix.Overlaps: equal after masking both to the shorter length. */
  predicate Overlaps(p: Prefix, q: Prefix) {
    var m := if p.bits <= q.bits then p.bits else q.bits;
    p.addr < INVALID && q.addr < INVALID && High(p.addr, 32 - m) == High(q.addr, 32 - m)
  }

  function Host(a: Addr): Prefix { Prefix(a, 32) }

  // ---------- block arithmetic ----------

  lemma {:induction false} Pow2Add(m: nat, n: nat)
    ensures Pow2(m + n) == Pow2(m) * Pow2(n)
  {
    if m > 0 {
      Pow2Add(m - 1, n);
    }
  }

  lemma Pow2At32()
    ensures Pow2(32) == INVALID
  {
    assert Pow2(8) == 256;
    assert Pow2(16) == 0x1_0000;
    assert Pow2(24) == 0x100_0000;
  }

  /** Agreeing on the leading bits is lying in the same aligned interval. */
  lemma {:induction false} HighIff(a: nat, b: nat, n: nat)
    ensures High(a, n) == High(b, n) <==> Clear(b, n) <= a < Clear(b, n) + Pow2(n)
  {
    if n > 0 {
      HighIff(a / 2, b / 2, n - 1);
    }
  }

  lemma {:induction false} HighAdd(a: nat, m: nat, n: nat)
    ensures High(a, m + n) == High(High(a, m), n)
  {
    if m > 0 {
      HighAdd(a / 2, m - 1, n);
    }
  }

  lemma {:induction false} HighOfClear(a: nat, n: nat)
    ensures High(Clear(a, n), n) == High(a, n)
    ensures Clear(Clear(a, n), n) == Clear(a, n)
  {
    if n > 0 {
      HighOfClear(a / 2, n - 1);
      assert Clear(a, n) / 2 == Clear(a / 2, n - 1);
    }
  }

  lemma {:induction false} ClearOfHigh(a: nat, b: nat, n: nat)
    requires High(a, n) == High(b, n)
    ensures Clear(a, n) == Clear(b, n)
  {
    if n > 0 {
      ClearOfHigh(a / 2, b / 2, n - 1);
    }
  }

  /** Two canonical prefixes of one length around one address are the same prefix. */
  lemma SameLengthSamePrefix(p: Prefix, q: Prefix, a: Addr)
    requires Masked(p) == p && Masked(q) == q && p.bits == q.bits && Contains(p, a) && Contains(q, a)
    ensures p == q
  {
    ClearOfHigh(p.addr, q.addr, 32 - p.bits);
  }

  /** A prefix is the interval of Pow2(32 - bits) addresses from its network address. */
  lemma ContainsIff(p: Prefix, a: Addr)
    requires a < INVALID && p.addr < INVALID
    ensures Contains(p, a) <==> Mask(p.addr, p.bits) <= a < Mask(p.addr, p.bits) + Pow2(32 - p.bits)
  {
    HighIff(a, p.addr, 32 - p.bits);
  }

  lemma MaskTwice(a: Addr, bits: Bits)
    ensures Mask(Mask(a, bits), bits) == Mask(a, bits)
  {
    HighOfClear(a, 32 - bits);
  }

  lemma MaskedContains(p: Prefix, a: Addr)
    ensures p.addr < INVALID ==> (Contains(Masked(p), a) <==> Contains(p, a))
  {
    HighOfClear(p.addr, 32 - p.bits);
  }

  /** Blocks nest: agreeing on a long prefix means agreeing on every shorter one. */
  lemma BlocksNest(a: Addr, b: Addr, short: Bits, long: Bits)
    requires short <= long && High(a, 32 - long) == High(b, 32 - long)
    ensures High(a, 32 - short) == High(b, 32 - short)
  {
    HighAdd(a, 32 - long, long - short);
    HighAdd(b, 32 - long, long - short);
  }

  /** Two prefixes overlap exactly when some address lies in both. */
  lemma OverlapsIff(p: Prefix, q: Prefix)
    ensures Overlaps(p, q) <==> exists a: Addr :: Contains(p, a) && Contains(q, a)
  {
    forall a: Addr | Contains(p, a) && Contains(q, a) ensures Overlaps(p, q) {
      if p.bits <= q.bits {
        BlocksNest(a, q.addr, p.bits, q.bits);
      } else {
        BlocksNest(a, p.addr, q.bits, p.bits);
      }
    }
    if Overlaps(p, q) {
      if p.bits <= q.bits {
        assert Contains(p, q.addr) && Contains(q, q.addr);
      } else {
        assert Contains(p, p.addr) && Contains(q, p.addr);
      }
    }
  }

  // ---------- texts ----------

  /** Addr.As4. */
  function Octets(a: Addr): (o: seq<nat>)
    ensures |o| == 4
  {
    [a / 256 / 256 / 256, a / 256 / 256 % 256, a / 256 % 256, a % 256]
  }

  lemma OctetsInjective(a: Addr, b: Addr)
    requires Octets(a) == Octets(b)
    ensures a == b
  {
    var o, q := Octets(a), Octets(b);
    assert o[0] == q[0] && o[1] == q[1] && o[2] == q[2] && o[3] == q[3];
  }

  function Quad(a: Addr): (o: seq<string>)
    ensures |o| == 4
  {
    var o := Octets(a);
    [Dec(o[0]), Dec(o[1]), Dec(o[2]), Dec(o[3])]
  }

  /** Addr.String. */
  function AddrText(a: Addr): string {
    if a == INVALID then "invalid IP" else Join(Quad(a), '.')
  }

  /** Prefix.String, also the "<ip>/32" concatenations of the coordinator. */
  function CidrText(p: Prefix): string { Join([AddrText(p.addr), Dec(p.bits)], '/') }

  lemma QuadText(o: seq<string>)
    requires |o| == 4
    ensures Join(o, '.') == o[0] + ['.'] + (o[1] + ['.'] + (o[2] + ['.'] + o[3]))
  {
    assert Join([o[3]], '.') == o[3];
    assert o[2..][1..] == [o[3]] && Join(o[2..], '.') == o[2] + ['.'] + o[3];
    assert o[1..][1..] == o[2..] && Join(o[1..], '.') == o[1] + ['.'] + Join(o[2..], '.');
  }

  predicate AddrChar(c: char) { IsDigit(c) || c == '.' }

  lemma AddrTextChars(a: Addr)
    ensures Free(Quad(a), '.')
    ensures a < INVALID ==> forall c :: c in AddrText(a) ==> AddrChar(c)
    ensures forall c :: c in AddrText(a) ==> c != '/' && c != ',' && c != '|' && c != '#' && c != '\n'
    ensures AddrText(a) != ""
  {
    QuadText(Quad(a));
  }

  lemma AddrTextInjective(a: Addr, b: Addr)
    requires AddrText(a) == AddrText(b)
    ensures a == b
  {
    AddrTextChars(a);
    AddrTextChars(b);
    if a < INVALID && b < INVALID {
      SplitJoin(Quad(a), '.');
      SplitJoin(Quad(b), '.');
      QuadInjective(a, b);
    } else {
      assert "invalid IP"[0] == 'i' && !AddrChar('i');
    }
  }

  lemma QuadInjective(a: Addr, b: Addr)
    requires Quad(a) == Quad(b)
    ensures a == b
  {
    var o, q := Octets(a), Octets(b);
    var s, t := Quad(a), Quad(b);
    assert s[0] == t[0] && s[1] == t[1] && s[2] == t[2] && s[3] == t[3];
    DecInjective(o[0], q[0]);
    DecInjective(o[1], q[1]);
    DecInjective(o[2], q[2]);
    DecInjective(o[3], q[3]);
    OctetsInjective(a, b);
  }

  /** The text of an address is its four bytes, most significant first. */
  lemma AddrTextValue(a: Addr)
    requires a < INVALID
    ensures var parts := Split(AddrText(a), '.');
      && |parts| == 4 && (forall i :: 0 <= i < 4 ==> 0 <= PortValue(parts[i]) < 256)
      && ((PortValue(parts[0]) * 256 + PortValue(parts[1])) * 256 + PortValue(parts[2])) * 256 + PortValue(parts[3]) == a
  {
    AddrTextChars(a);
    SplitJoin(Quad(a), '.');
    var o := Octets(a);
    DecValue(o[0]);
    DecValue(o[1]);
    DecValue(o[2]);
    DecValue(o[3]);
  }

  lemma CidrTextChars(p: Prefix)
    ensures CidrText(p) == AddrText(p.addr) + ['/'] + Dec(p.bits)
    ensures ',' !in CidrText(p) && CidrText(p) != ""
    ensures Free([AddrText(p.addr), Dec(p.bits)], '/')
  {
    AddrTextChars(p.addr);
    assert [AddrText(p.addr), Dec(p.bits)][1..] == [Dec(p.bits)];
  }

  /** Distinct prefixes have distinct texts: comparing texts compares prefixes. */
  lemma CidrTextInjective(p: Prefix, q: Prefix)
    requires CidrText(p) == CidrText(q)
    ensures p == q
  {
    CidrTextChars(p);
    CidrTextChars(q);
    SplitJoin([AddrText(p.addr), Dec(p.bits)], '/');
    SplitJoin([AddrText(q.addr), Dec(q.bits)], '/');
    assert [AddrText(p.addr), Dec(p.bits)] == [AddrText(q.addr), Dec(q.bits)];
    AddrTextInjective(p.addr, q.addr);
    DecInjective(p.bits, q.bits);
  }

  /** The addresses a CIDR text stands for. */
  ghost predicate CidrHas(text: string, a: Addr) {
    exists p: Prefix :: CidrText(p) == text && Contains(p, a)
  }

  lemma CidrHasPrefix(p: Prefix, a: Addr)
    ensures CidrHas(CidrText(p), a) <==> Contains(p, a)
  {
    if CidrHas(CidrText(p), a) {
      var q: Prefix :| CidrText(q) == CidrText(p) && Contains(q, a);
      CidrTextInjective(q, p);
    }
  }

  /** A /32 text names one address and no other. */
  lemma HostText(a: Addr, b: Addr)
    requires b < INVALID
    ensures CidrHas(CidrText(Host(a)), b) <==> a == b
    ensures CidrText(Host(a)) == CidrText(Host(b)) <==> a == b
  {
    CidrHasPrefix(Host(a), b);
    if CidrText(Host(a)) == CidrText(Host(b)) {
      CidrTextInjective(Host(a), Host(b));
    }
  }
}
