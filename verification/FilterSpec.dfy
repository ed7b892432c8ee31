/** Allow-rules compiled into iptables chains (internal/agent/filterspec.go). */
module FilterSpec {
  import opened Text
  import opened Net
  import opened Rules

  // ---------- a first-match packet filter ----------

  datatype Target = ACCEPT | DROP

  /** One matcher or jump of a rule body, with its operand text. */
  datatype Arg =
    | CtEstablished            // -m conntrack --ctstate ESTABLISHED,RELATED
    | Src(cidr: string)        // -s
    | Dst(cidr: string)        // -d
    | Proto(name: string)      // -p
    | Dports(list: string)     // -m multiport --dports
    | Jump(target: Target)     // -j

  datatype Packet = Packet(src: Addr, dst: Addr, l4: L4, established: bool)

  type Body = seq<Arg>

  predicate ProtoIs(name: string, l4: L4) {
    match l4
    case Tcp(_) => name == "tcp"
    case Udp(_) => name == "udp"
    case Icmp => name == "icmp"
    case OtherL4(_) => false
  }

  predicate DportIn(list: string, l4: L4) {
    (l4.Tcp? || l4.Udp?) && HasPort(Split(list, ','), l4.port)
  }

  ghost predicate ArgMatches(arg: Arg, p: Packet) {
    match arg
    case CtEstablished => p.established
    case Src(c) => CidrHas(c, p.src)
    case Dst(c) => CidrHas(c, p.dst)
    case Proto(name) => ProtoIs(name, p.l4)
    case Dports(list) => DportIn(list, p.l4)
    case Jump(_) => true
  }

  ghost predicate BodyMatches(b: Body, p: Packet) {
    forall i :: 0 <= i < |b| ==> ArgMatches(b[i], p)
  }

  /** The target of a body: its last argument, when that is a jump. */
  function BodyTarget(b: Body): Target {
    if b != [] && b[|b| - 1].Jump? then b[|b| - 1].target else DROP
  }

  /** The verdict of the first body that matches; falling off the end drops. */
  ghost function Verdict(chain: seq<Body>, p: Packet): Target {
    if chain == [] then DROP
    else if BodyMatches(chain[0], p) then BodyTarget(chain[0])
    else Verdict(chain[1..], p)
  }

  // ---------- protocol and port matchers ----------

  /** slices.Chunk(ports, 15). */
  function Chunks(ports: seq<string>): (cs: seq<seq<string>>)
    ensures forall i :: 0 <= i < |cs| ==> 1 <= |cs[i]| <= 15
  {
    if |ports| == 0 then []
    else if |ports| <= 15 then [ports]
    else [ports[..15]] + Chunks(ports[15..])
  }

  function Flatten(cs: seq<seq<string>>): seq<string> {
    if cs == [] then [] else cs[0] + Flatten(cs[1..])
  }

  /** The chunks are the port list cut up: nothing lost, added or reordered. */
  lemma {:induction false} ChunksCover(ports: seq<string>)
    ensures Flatten(Chunks(ports)) == ports
  {
    if |ports| > 15 {
      ChunksCover(ports[15..]);
      assert Chunks(ports)[1..] == Chunks(ports[15..]);
      assert ports[..15] + ports[15..] == ports;
    } else if |ports| > 0 {
      assert Flatten([]) == [] && [ports][1..] == [];
    }
  }

  lemma {:induction false} ChunksHasPort(ports: seq<string>, n: int)
    ensures HasPort(ports, n) <==> exists i :: 0 <= i < |Chunks(ports)| && HasPort(Chunks(ports)[i], n)
  {
    if |ports| > 15 {
      var cs, rest := Chunks(ports), Chunks(ports[15..]);
      ChunksHasPort(ports[15..], n);
      assert ports == ports[..15] + ports[15..];
      assert HasPort(ports, n) <==> HasPort(ports[..15], n) || HasPort(ports[15..], n);
      assert cs[0] == ports[..15] && forall i :: 0 <= i < |rest| ==> cs[i + 1] == rest[i];
      if HasPort(ports[15..], n) {
        var i :| 0 <= i < |rest| && HasPort(rest[i], n);
        assert HasPort(cs[i + 1], n);
      }
      forall i | 0 <= i < |cs| && HasPort(cs[i], n) ensures HasPort(ports, n) {
        if i > 0 {
          assert HasPort(rest[i - 1], n);
        }
      }
    } else if |ports| > 0 {
      assert Chunks(ports)[0] == ports;
    }
  }

  function PortBody(protocol: string, chunk: seq<string>): Body { [Proto(protocol), Dports(JoinCSV(chunk))] }

  function PortBodies(protocol: string, chunks: seq<seq<string>>): seq<Body> {
    seq(|chunks|, i requires 0 <= i < |chunks| => PortBody(protocol, chunks[i]))
  }

  function ProtoPortArgsOf(s: Service): seq<Body> {
    if s.protocol == "" || s.protocol == "any" then [[]]
    else if s.protocol == "icmp" then [[Proto("icmp")]]
    else if s.protocol == "tcp" || s.protocol == "udp" then
      if s.ports == [] then [[Proto(s.protocol)]] else PortBodies(s.protocol, Chunks(s.ports))
    else []
  }

  ghost predicate SomeMatches(bodies: seq<Body>, p: Packet) {
    exists i :: 0 <= i < |bodies| && BodyMatches(bodies[i], p)
  }

  lemma PortBodyExact(protocol: string, chunk: seq<string>, p: Packet)
    requires chunk != [] && Free(chunk, ',')
    ensures BodyMatches(PortBody(protocol, chunk), p) <==>
            ProtoIs(protocol, p.l4) && (p.l4.Tcp? || p.l4.Udp?) && HasPort(chunk, p.l4.port)
  {
    SplitJoin(chunk, ',');
    var b := PortBody(protocol, chunk);
    assert BodyMatches(b, p) <==> ArgMatches(b[0], p) && ArgMatches(b[1], p);
  }

  lemma {:induction false} ChunksFree(ports: seq<string>)
    requires Free(ports, ',')
    ensures forall i :: 0 <= i < |Chunks(ports)| ==> Free(Chunks(ports)[i], ',')
  {
    if |ports| > 15 {
      ChunksFree(ports[15..]);
    }
  }

  lemma PortBodiesExact(protocol: string, ports: seq<string>, p: Packet)
    requires ports != [] && Free(ports, ',') && (protocol == "tcp" || protocol == "udp")
    ensures SomeMatches(PortBodies(protocol, Chunks(ports)), p) <==>
            ProtoIs(protocol, p.l4) && HasPort(ports, p.l4.port)
  {
    var cs := Chunks(ports);
    var bodies := PortBodies(protocol, cs);
    ChunksFree(ports);
    assert ProtoIs(protocol, p.l4) ==> p.l4.Tcp? || p.l4.Udp?;
    forall i | 0 <= i < |cs|
      ensures BodyMatches(bodies[i], p) <==> ProtoIs(protocol, p.l4) && HasPort(cs[i], p.l4.port)
    {
      PortBodyExact(protocol, cs[i], p);
    }
    if ProtoIs(protocol, p.l4) {
      ChunksHasPort(ports, p.l4.port);
    }
  }

  lemma OneBody(b: Body, p: Packet)
    ensures SomeMatches([b], p) <==> BodyMatches(b, p)
  {
    if BodyMatches(b, p) {
      assert BodyMatches([b][0], p);
    }
  }

  /** The matchers of a service accept exactly its flows; an unknown protocol none. */
  lemma ProtoPortExact(s: Service, p: Packet)
    requires Free(s.ports, ',')
    ensures SomeMatches(ProtoPortArgsOf(s), p) <==> L4Match(s, p.l4)
  {
    if s.protocol == "" || s.protocol == "any" {
      OneBody([], p);
    } else if s.protocol == "icmp" {
      OneBody([Proto("icmp")], p);
      assert BodyMatches([Proto("icmp")], p) <==> ArgMatches([Proto("icmp")][0], p);
    } else if s.protocol == "tcp" || s.protocol == "udp" {
      if s.ports == [] {
        OneBody([Proto(s.protocol)], p);
        assert BodyMatches([Proto(s.protocol)], p) <==> ArgMatches([Proto(s.protocol)][0], p);
      } else {
        PortBodiesExact(s.protocol, s.ports, p);
      }
    }
  }

  // ---------- chains ----------

  const ESTABLISHED: Body := [CtEstablished, Jump(ACCEPT)]

  const DROP_ALL: Body := [Jump(DROP)]

  function AcceptBody(addresses: Body, pp: Body): Body { addresses + pp + [Jump(ACCEPT)] }

  function AcceptBodies(addresses: Body, pps: seq<Body>): seq<Body> {
    if pps == [] then []
    else AcceptBodies(addresses, pps[..|pps| - 1]) + [AcceptBody(addresses, pps[|pps| - 1])]
  }

  function SrcBodies(srcs: seq<string>, pps: seq<Body>): seq<Body> {
    if srcs == [] then []
    else SrcBodies(srcs[..|srcs| - 1], pps) + AcceptBodies([Src(srcs[|srcs| - 1])], pps)
  }

  function FilterBodies(rules: seq<FilterRule>): seq<Body> {
    if rules == [] then []
    else FilterBodies(rules[..|rules| - 1]) +
         SrcBodies(rules[|rules| - 1].srcCidrs, ProtoPortArgsOf(rules[|rules| - 1].service))
  }

  function FilterChain(rules: seq<FilterRule>): seq<Body> { [ESTABLISHED] + FilterBodies(rules) + [DROP_ALL] }

  function PairBodies(src: string, dsts: seq<string>, pps: seq<Body>): seq<Body> {
    if dsts == [] then []
    else PairBodies(src, dsts[..|dsts| - 1], pps) + AcceptBodies([Src(src), Dst(dsts[|dsts| - 1])], pps)
  }

  function SrcDstBodies(srcs: seq<string>, dsts: seq<string>, pps: seq<Body>): seq<Body> {
    if srcs == [] then []
    else SrcDstBodies(srcs[..|srcs| - 1], dsts, pps) + PairBodies(srcs[|srcs| - 1], dsts, pps)
  }

  function ForwardBodies(rules: seq<ForwardRule>): seq<Body> {
    if rules == [] then []
    else
      var r := rules[|rules| - 1];
      ForwardBodies(rules[..|rules| - 1]) + SrcDstBodies(r.srcCidrs, r.dstCidrs, ProtoPortArgsOf(r.service))
  }

  function ForwardChain(rules: seq<ForwardRule>): seq<Body> { [ESTABLISHED] + ForwardBodies(rules) + [DROP_ALL] }

  // ---------- exactness ----------

  lemma SomeConcat(xs: seq<Body>, ys: seq<Body>, p: Packet)
    ensures SomeMatches(xs + ys, p) <==> SomeMatches(xs, p) || SomeMatches(ys, p)
  {
    if SomeMatches(xs, p) {
      var i :| 0 <= i < |xs| && BodyMatches(xs[i], p);
      assert BodyMatches((xs + ys)[i], p);
    }
    if SomeMatches(ys, p) {
      var i :| 0 <= i < |ys| && BodyMatches(ys[i], p);
      assert BodyMatches((xs + ys)[|xs| + i], p);
    }
    if SomeMatches(xs + ys, p) {
      var i :| 0 <= i < |xs + ys| && BodyMatches((xs + ys)[i], p);
      assert (xs + ys)[i] == if i < |xs| then xs[i] else ys[i - |xs|];
    }
  }

  lemma AcceptBodyExact(addresses: Body, pp: Body, p: Packet)
    ensures BodyMatches(AcceptBody(addresses, pp), p) <==> BodyMatches(addresses, p) && BodyMatches(pp, p)
  {
    var b := AcceptBody(addresses, pp);
    if BodyMatches(b, p) {
      forall i | 0 <= i < |addresses| ensures ArgMatches(addresses[i], p) { assert b[i] == addresses[i]; }
      forall i | 0 <= i < |pp| ensures ArgMatches(pp[i], p) { assert b[|addresses| + i] == pp[i]; }
    }
  }

  lemma {:induction false} AcceptBodiesExact(addresses: Body, pps: seq<Body>, p: Packet)
    ensures SomeMatches(AcceptBodies(addresses, pps), p) <==> BodyMatches(addresses, p) && SomeMatches(pps, p)
  {
    if pps != [] {
      var init, pp := pps[..|pps| - 1], pps[|pps| - 1];
      AcceptBodiesExact(addresses, init, p);
      AcceptBodyExact(addresses, pp, p);
      SomeConcat(AcceptBodies(addresses, init), [AcceptBody(addresses, pp)], p);
      OneBody(AcceptBody(addresses, pp), p);
      SomeConcat(init, [pp], p);
      OneBody(pp, p);
      assert init + [pp] == pps;
    }
  }

  lemma AnyCidrSnoc(cs: seq<string>, c: string, a: Addr)
    ensures AnyCidrHas(cs + [c], a) <==> AnyCidrHas(cs, a) || CidrHas(c, a)
  {
    if CidrHas(c, a) {
      assert c in cs + [c];
    }
    if AnyCidrHas(cs, a) {
      var d :| d in cs && CidrHas(d, a);
      assert d in cs + [c];
    }
  }

  lemma {:induction false} SrcBodiesExact(srcs: seq<string>, pps: seq<Body>, p: Packet)
    ensures SomeMatches(SrcBodies(srcs, pps), p) <==> AnyCidrHas(srcs, p.src) && SomeMatches(pps, p)
  {
    if srcs != [] {
      var init, c := srcs[..|srcs| - 1], srcs[|srcs| - 1];
      SrcBodiesExact(init, pps, p);
      AcceptBodiesExact([Src(c)], pps, p);
      assert BodyMatches([Src(c)], p) <==> ArgMatches([Src(c)][0], p);
      SomeConcat(SrcBodies(init, pps), AcceptBodies([Src(c)], pps), p);
      AnyCidrSnoc(init, c, p.src);
      assert init + [c] == srcs;
    }
  }

  lemma {:induction false} PairBodiesExact(src: string, dsts: seq<string>, pps: seq<Body>, p: Packet)
    ensures SomeMatches(PairBodies(src, dsts, pps), p) <==>
            CidrHas(src, p.src) && AnyCidrHas(dsts, p.dst) && SomeMatches(pps, p)
  {
    if dsts != [] {
      var init, d := dsts[..|dsts| - 1], dsts[|dsts| - 1];
      var pair := [Src(src), Dst(d)];
      PairBodiesExact(src, init, pps, p);
      AcceptBodiesExact(pair, pps, p);
      assert BodyMatches(pair, p) <==> ArgMatches(pair[0], p) && ArgMatches(pair[1], p);
      SomeConcat(PairBodies(src, init, pps), AcceptBodies(pair, pps), p);
      AnyCidrSnoc(init, d, p.dst);
      assert init + [d] == dsts;
    }
  }

  lemma {:induction false} SrcDstBodiesExact(srcs: seq<string>, dsts: seq<string>, pps: seq<Body>, p: Packet)
    ensures SomeMatches(SrcDstBodies(srcs, dsts, pps), p) <==>
            AnyCidrHas(srcs, p.src) && AnyCidrHas(dsts, p.dst) && SomeMatches(pps, p)
  {
    if srcs != [] {
      var init, c := srcs[..|srcs| - 1], srcs[|srcs| - 1];
      SrcDstBodiesExact(init, dsts, pps, p);
      PairBodiesExact(c, dsts, pps, p);
      SomeConcat(SrcDstBodies(init, dsts, pps), PairBodies(c, dsts, pps), p);
      AnyCidrSnoc(init, c, p.src);
      assert init + [c] == srcs;
    }
  }

  /** Ports come out of normalizePorts as signed or plain numerals, so none holds a comma. */
  ghost predicate PlainPorts(s: Service) { Free(s.ports, ',') }

  lemma {:induction false} FilterBodiesExact(rules: seq<FilterRule>, p: Packet)
    requires forall r :: r in rules ==> PlainPorts(r.service)
    ensures SomeMatches(FilterBodies(rules), p) <==> FilterAdmits(rules, p.src, p.l4)
  {
    if rules != [] {
      var init, r := rules[..|rules| - 1], rules[|rules| - 1];
      assert rules == init + [r];
      FilterBodiesExact(init, p);
      SrcBodiesExact(r.srcCidrs, ProtoPortArgsOf(r.service), p);
      ProtoPortExact(r.service, p);
      SomeConcat(FilterBodies(init), SrcBodies(r.srcCidrs, ProtoPortArgsOf(r.service)), p);
      assert forall q :: q in rules <==> q in init || q == r;
      assert FilterAdmits(rules, p.src, p.l4) <==> FilterAdmits(init, p.src, p.l4) || FilterRuleAdmits(r, p.src, p.l4);
    }
  }

  lemma {:induction false} ForwardBodiesExact(rules: seq<ForwardRule>, p: Packet)
    requires forall r :: r in rules ==> PlainPorts(r.service)
    ensures SomeMatches(ForwardBodies(rules), p) <==> ForwardAdmits(rules, p.src, p.dst, p.l4)
  {
    if rules != [] {
      var init, r := rules[..|rules| - 1], rules[|rules| - 1];
      assert rules == init + [r];
      ForwardBodiesExact(init, p);
      SrcDstBodiesExact(r.srcCidrs, r.dstCidrs, ProtoPortArgsOf(r.service), p);
      ProtoPortExact(r.service, p);
      SomeConcat(ForwardBodies(init), SrcDstBodies(r.srcCidrs, r.dstCidrs, ProtoPortArgsOf(r.service)), p);
      assert forall q :: q in rules <==> q in init || q == r;
      assert ForwardAdmits(rules, p.src, p.dst, p.l4) <==>
        ForwardAdmits(init, p.src, p.dst, p.l4) || ForwardRuleAdmits(r, p.src, p.dst, p.l4);
    }
  }

  ghost predicate AllAccept(bodies: seq<Body>) {
    forall i :: 0 <= i < |bodies| ==> BodyTarget(bodies[i]) == ACCEPT
  }

  lemma {:induction false} AcceptBodiesAccept(addresses: Body, pps: seq<Body>)
    ensures AllAccept(AcceptBodies(addresses, pps))
  {
    if pps != [] {
      AcceptBodiesAccept(addresses, pps[..|pps| - 1]);
    }
  }

  lemma {:induction false} FilterBodiesAccept(rules: seq<FilterRule>)
    ensures AllAccept(FilterBodies(rules))
  {
    if rules != [] {
      FilterBodiesAccept(rules[..|rules| - 1]);
      SrcBodiesAccept(rules[|rules| - 1].srcCidrs, ProtoPortArgsOf(rules[|rules| - 1].service));
    }
  }

  lemma {:induction false} SrcBodiesAccept(srcs: seq<string>, pps: seq<Body>)
    ensures AllAccept(SrcBodies(srcs, pps))
  {
    if srcs != [] {
      SrcBodiesAccept(srcs[..|srcs| - 1], pps);
      AcceptBodiesAccept([Src(srcs[|srcs| - 1])], pps);
    }
  }

  lemma {:induction false} PairBodiesAccept(src: string, dsts: seq<string>, pps: seq<Body>)
    ensures AllAccept(PairBodies(src, dsts, pps))
  {
    if dsts != [] {
      PairBodiesAccept(src, dsts[..|dsts| - 1], pps);
      AcceptBodiesAccept([Src(src), Dst(dsts[|dsts| - 1])], pps);
    }
  }

  lemma {:induction false} SrcDstBodiesAccept(srcs: seq<string>, dsts: seq<string>, pps: seq<Body>)
    ensures AllAccept(SrcDstBodies(srcs, dsts, pps))
  {
    if srcs != [] {
      SrcDstBodiesAccept(srcs[..|srcs| - 1], dsts, pps);
      PairBodiesAccept(srcs[|srcs| - 1], dsts, pps);
    }
  }

  lemma {:induction false} ForwardBodiesAccept(rules: seq<ForwardRule>)
    ensures AllAccept(ForwardBodies(rules))
  {
    if rules != [] {
      var r := rules[|rules| - 1];
      ForwardBodiesAccept(rules[..|rules| - 1]);
      SrcDstBodiesAccept(r.srcCidrs, r.dstCidrs, ProtoPortArgsOf(r.service));
    }
  }

  /** A run of accepting bodies before a final drop accepts iff one of them matches. */
  lemma {:induction false} FirstMatch(bodies: seq<Body>, p: Packet)
    requires AllAccept(bodies)
    ensures Verdict(bodies + [DROP_ALL], p) == ACCEPT <==> SomeMatches(bodies, p)
  {
    var chain := bodies + [DROP_ALL];
    if bodies == [] {
      assert BodyMatches(DROP_ALL, p);
    } else {
      FirstMatch(bodies[1..], p);
      assert chain[1..] == bodies[1..] + [DROP_ALL];
      assert bodies == [bodies[0]] + bodies[1..];
      SomeConcat([bodies[0]], bodies[1..], p);
      OneBody(bodies[0], p);
    }
  }

  lemma ChainVerdict(bodies: seq<Body>, p: Packet)
    requires AllAccept(bodies)
    ensures Verdict([ESTABLISHED] + bodies + [DROP_ALL], p) == ACCEPT <==> p.established || SomeMatches(bodies, p)
  {
    var chain := [ESTABLISHED] + bodies;
    FirstMatch(chain, p);
    SomeConcat([ESTABLISHED], bodies, p);
    OneBody(ESTABLISHED, p);
    assert BodyMatches(ESTABLISHED, p) <==> ArgMatches(ESTABLISHED[0], p) && ArgMatches(ESTABLISHED[1], p);
  }

  /** The inbound chain accepts a new flow iff some rule admits it, and nothing else. */
  lemma FilterChainExact(rules: seq<FilterRule>, p: Packet)
    requires forall r :: r in rules ==> PlainPorts(r.service)
    ensures Verdict(FilterChain(rules), p) == ACCEPT <==> p.established || FilterAdmits(rules, p.src, p.l4)
  {
    FilterBodiesAccept(rules);
    ChainVerdict(FilterBodies(rules), p);
    FilterBodiesExact(rules, p);
  }

  /** The forward chain accepts a new flow iff some rule admits its two ends. */
  lemma ForwardChainExact(rules: seq<ForwardRule>, p: Packet)
    requires forall r :: r in rules ==> PlainPorts(r.service)
    ensures Verdict(ForwardChain(rules), p) == ACCEPT <==> p.established || ForwardAdmits(rules, p.src, p.dst, p.l4)
  {
    ForwardBodiesAccept(rules);
    ChainVerdict(ForwardBodies(rules), p);
    ForwardBodiesExact(rules, p);
  }

  // ---------- the compiler's loops ----------

  /** One multiport matcher per chunk of the library's slices.Chunk. */
  method ChunkPorts(protocol: string, ports: seq<string>) returns (out: seq<Body>)
    ensures out == PortBodies(protocol, Chunks(ports))
  {
    var chunks := Chunks(ports);
    out := [];
    for i := 0 to |chunks|
      invariant |out| == i && forall j :: 0 <= j < i ==> out[j] == PortBody(protocol, chunks[j])
    {
      out := out + [[Proto(protocol), Dports(JoinCSV(chunks[i]))]];
    }
  }

  method ProtoPortArgs(s: Service) returns (out: seq<Body>)
    ensures out == ProtoPortArgsOf(s)
  {
    if s.protocol == "" || s.protocol == "any" {
      return [[]];
    } else if s.protocol == "icmp" {
      return [[Proto("icmp")]];
    } else if s.protocol == "tcp" || s.protocol == "udp" {
      if |s.ports| == 0 {
        return [[Proto(s.protocol)]];
      }
      out := ChunkPorts(s.protocol, s.ports);
    } else {
      return [];
    }
  }

  method AppendAccepts(addresses: Body, pps: seq<Body>, specs: seq<Body>) returns (out: seq<Body>)
    ensures out == specs + AcceptBodies(addresses, pps)
  {
    out := specs;
    for k := 0 to |pps|
      invariant out == specs + AcceptBodies(addresses, pps[..k])
    {
      assert pps[..k + 1][..k] == pps[..k];
      out := out + [addresses + pps[k] + [Jump(ACCEPT)]];
    }
    assert pps[..|pps|] == pps;
  }

  method AppendSources(srcs: seq<string>, pps: seq<Body>, specs: seq<Body>) returns (out: seq<Body>)
    ensures out == specs + SrcBodies(srcs, pps)
  {
    out := specs;
    for j := 0 to |srcs|
      invariant out == specs + SrcBodies(srcs[..j], pps)
    {
      assert srcs[..j + 1][..j] == srcs[..j];
      out := AppendAccepts([Src(srcs[j])], pps, out);
    }
    assert srcs[..|srcs|] == srcs;
  }

  lemma BodiesAssociative(xs: seq<Body>, ys: seq<Body>, zs: seq<Body>)
    ensures xs + ys + zs == xs + (ys + zs)
  {
  }

  lemma FilterBodiesSnoc(head: seq<Body>, rules: seq<FilterRule>, i: nat)
    requires i < |rules|
    ensures head + FilterBodies(rules[..i + 1]) ==
            head + FilterBodies(rules[..i]) + SrcBodies(rules[i].srcCidrs, ProtoPortArgsOf(rules[i].service))
  {
    assert rules[..i + 1][..i] == rules[..i];
    BodiesAssociative(head, FilterBodies(rules[..i]), SrcBodies(rules[i].srcCidrs, ProtoPortArgsOf(rules[i].service)));
  }

  lemma ForwardBodiesSnoc(head: seq<Body>, rules: seq<ForwardRule>, i: nat)
    requires i < |rules|
    ensures head + ForwardBodies(rules[..i + 1]) ==
            head + ForwardBodies(rules[..i]) + SrcDstBodies(rules[i].srcCidrs, rules[i].dstCidrs, ProtoPortArgsOf(rules[i].service))
  {
    assert rules[..i + 1][..i] == rules[..i];
    BodiesAssociative(head, ForwardBodies(rules[..i]), SrcDstBodies(rules[i].srcCidrs, rules[i].dstCidrs, ProtoPortArgsOf(rules[i].service)));
  }

  method FilterChainSpecs(rules: seq<FilterRule>) returns (specs: seq<Body>)
    ensures specs == FilterChain(rules)
  {
    specs := [ESTABLISHED];
    for i := 0 to |rules|
      invariant specs == [ESTABLISHED] + FilterBodies(rules[..i])
    {
      FilterBodiesSnoc([ESTABLISHED], rules, i);
      var pps := ProtoPortArgs(rules[i].service);
      specs := AppendSources(rules[i].srcCidrs, pps, specs);
    }
    assert rules[..|rules|] == rules;
    specs := specs + [DROP_ALL];
  }

  method AppendPairs(src: string, dsts: seq<string>, pps: seq<Body>, specs: seq<Body>) returns (out: seq<Body>)
    ensures out == specs + PairBodies(src, dsts, pps)
  {
    out := specs;
    for k := 0 to |dsts|
      invariant out == specs + PairBodies(src, dsts[..k], pps)
    {
      assert dsts[..k + 1][..k] == dsts[..k];
      out := AppendAccepts([Src(src), Dst(dsts[k])], pps, out);
    }
    assert dsts[..|dsts|] == dsts;
  }

  method AppendSourcePairs(srcs: seq<string>, dsts: seq<string>, pps: seq<Body>, specs: seq<Body>) returns (out: seq<Body>)
    ensures out == specs + SrcDstBodies(srcs, dsts, pps)
  {
    out := specs;
    for j := 0 to |srcs|
      invariant out == specs + SrcDstBodies(srcs[..j], dsts, pps)
    {
      assert srcs[..j + 1][..j] == srcs[..j];
      out := AppendPairs(srcs[j], dsts, pps, out);
    }
    assert srcs[..|srcs|] == srcs;
  }

  method ForwardChainSpecs(rules: seq<ForwardRule>) returns (specs: seq<Body>)
    ensures specs == ForwardChain(rules)
  {
    specs := [ESTABLISHED];
    for i := 0 to |rules|
      invariant specs == [ESTABLISHED] + ForwardBodies(rules[..i])
    {
      ForwardBodiesSnoc([ESTABLISHED], rules, i);
      var r := rules[i];
      var pps := ProtoPortArgs(r.service);
      specs := AppendSourcePairs(r.srcCidrs, r.dstCidrs, pps, specs);
    }
    assert rules[..|rules|] == rules;
    specs := specs + [DROP_ALL];
  }
}
