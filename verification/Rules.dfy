/** Compiled allow-rules and what they admit (internal/api/types.go). */
module Rules {
  import opened Text
  import opened Net

  /** The transport header of a new flow. */
  datatype L4 = Tcp(port: int) | Udp(port: int) | Icmp | OtherL4(number: int)

  /** A protocol name and a port list, as policies and rules carry them. */
  datatype Service = Service(protocol: string, ports: seq<string>)

  datatype FilterRule = FilterRule(srcCidrs: seq<string>, service: Service)

  datatype ForwardRule = ForwardRule(srcCidrs: seq<string>, dstCidrs: seq<string>, service: Service)

  predicate HasPort(ports: seq<string>, n: int) { exists t :: t in ports && PortValue(t) == n }

  /** Which flows a service speaks of; no ports means every port. */
  predicate L4Match(s: Service, l4: L4) {
    if s.protocol == "" || s.protocol == "any" then true
    else if s.protocol == "icmp" then l4.Icmp?
    else if s.protocol == "tcp" then l4.Tcp? && (s.ports == [] || HasPort(s.ports, l4.port))
    else if s.protocol == "udp" then l4.Udp? && (s.ports == [] || HasPort(s.ports, l4.port))
    else false
  }

  ghost predicate AnyCidrHas(cidrs: seq<string>, a: Addr) { exists c :: c in cidrs && CidrHas(c, a) }

  ghost predicate FilterRuleAdmits(r: FilterRule, a: Addr, l4: L4) {
    AnyCidrHas(r.srcCidrs, a) && L4Match(r.service, l4)
  }

  ghost predicate FilterAdmits(rules: seq<FilterRule>, a: Addr, l4: L4) {
    exists r :: r in rules && FilterRuleAdmits(r, a, l4)
  }

  ghost predicate ForwardRuleAdmits(r: ForwardRule, a: Addr, b: Addr, l4: L4) {
    AnyCidrHas(r.srcCidrs, a) && AnyCidrHas(r.dstCidrs, b) && L4Match(r.service, l4)
  }

  ghost predicate ForwardAdmits(rules: seq<ForwardRule>, a: Addr, b: Addr, l4: L4) {
    exists r :: r in rules && ForwardRuleAdmits(r, a, b, l4)
  }

  // ---------- the same, on texts ----------

  /** Some rule names this source text for this service. */
  ghost predicate Lists(rules: seq<FilterRule>, src: string, s: Service) {
    exists r :: r in rules && src in r.srcCidrs && r.service == s
  }

  /** Some rule names this pair of texts for this service. */
  ghost predicate ListsPair(rules: seq<ForwardRule>, src: string, dst: string, s: Service) {
    exists r :: r in rules && src in r.srcCidrs && dst in r.dstCidrs && r.service == s
  }

  lemma FilterAdmitsIff(rules: seq<FilterRule>, a: Addr, l4: L4)
    ensures FilterAdmits(rules, a, l4) <==> exists c, s :: Lists(rules, c, s) && CidrHas(c, a) && L4Match(s, l4)
  {
    if FilterAdmits(rules, a, l4) {
      var r :| r in rules && FilterRuleAdmits(r, a, l4);
      var c :| c in r.srcCidrs && CidrHas(c, a);
      assert Lists(rules, c, r.service);
    }
    forall c, s | Lists(rules, c, s) && CidrHas(c, a) && L4Match(s, l4) ensures FilterAdmits(rules, a, l4) {
      var r :| r in rules && c in r.srcCidrs && r.service == s;
      assert FilterRuleAdmits(r, a, l4);
    }
  }

  lemma ForwardAdmitsIff(rules: seq<ForwardRule>, a: Addr, b: Addr, l4: L4)
    ensures ForwardAdmits(rules, a, b, l4) <==>
      exists c, d, s :: ListsPair(rules, c, d, s) && CidrHas(c, a) && CidrHas(d, b) && L4Match(s, l4)
  {
    if ForwardAdmits(rules, a, b, l4) {
      var r :| r in rules && ForwardRuleAdmits(r, a, b, l4);
      var c :| c in r.srcCidrs && CidrHas(c, a);
      var d :| d in r.dstCidrs && CidrHas(d, b);
      assert ListsPair(rules, c, d, r.service);
    }
    forall c, d, s | ListsPair(rules, c, d, s) && CidrHas(c, a) && CidrHas(d, b) && L4Match(s, l4)
      ensures ForwardAdmits(rules, a, b, l4)
    {
      var r :| r in rules && c in r.srcCidrs && d in r.dstCidrs && r.service == s;
      assert ForwardRuleAdmits(r, a, b, l4);
    }
  }
}
