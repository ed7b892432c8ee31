/** Policies compiled into per-node allow-rules (internal/coordinator/acl.go). */
module Acl {
  import opened Text
  import opened Sorting
  import opened Net
  import opened Store
  import opened Rules

  // ---------- what a policy means ----------

  /** Tags select a device when the policy names none or shares one with it. */
  predicate TagMatch(policyTags: seq<string>, deviceTags: seq<string>) {
    policyTags == [] || exists t :: t in policyTags && t in deviceTags
  }

  /** Some enabled policy grants this flow between devices with these tags. */
  predicate PolicyAllows(policies: seq<Policy>, srcTags: seq<string>, dstTags: seq<string>, l4: L4) {
    exists p :: p in policies && p.enabled && TagMatch(p.srcTags, srcTags) && TagMatch(p.dstTags, dstTags)
                && L4Match(p.service, l4)
  }

  /** An enabled policy without tags for any protocol opens everything. */
  lemma UntaggedAllowsAll(policies: seq<Policy>, p: Policy, srcTags: seq<string>, dstTags: seq<string>, l4: L4)
    requires p in policies && p.enabled && p.srcTags == [] && p.dstTags == [] && (p.service.protocol == "any" || p.service.protocol == "")
    ensures PolicyAllows(policies, srcTags, dstTags, l4)
  {
    assert TagMatch(p.srcTags, srcTags) && TagMatch(p.dstTags, dstTags) && L4Match(p.service, l4);
  }

  // ---------- participants ----------

  /** A node, a static peer, or a LAN subnet with the tags of its router. */
  datatype AclDev = AclDev(cidr: string, tags: seq<string>)

  function NodeDev(n: Node): AclDev { AclDev(CidrText(Host(n.ip)), n.tags) }

  function StaticDev(p: StaticPeer): AclDev { AclDev(CidrText(Host(p.ip)), p.tags) }

  function SourcesOf(nodes: seq<Node>, statics: seq<StaticPeer>): seq<AclDev> {
    seq(|nodes|, i requires 0 <= i < |nodes| => NodeDev(nodes[i])) +
    seq(|statics|, i requires 0 <= i < |statics| => StaticDev(statics[i]))
  }

  ghost predicate CommaFree(devs: seq<AclDev>) { forall i :: 0 <= i < |devs| ==> ',' !in devs[i].cidr }

  lemma SourcesCommaFree(nodes: seq<Node>, statics: seq<StaticPeer>)
    ensures CommaFree(SourcesOf(nodes, statics))
  {
    var s := SourcesOf(nodes, statics);
    forall i | 0 <= i < |s| ensures ',' !in s[i].cidr {
      var ip := if i < |nodes| then nodes[i].ip else statics[i - |nodes|].ip;
      assert s[i].cidr == CidrText(Host(ip));
      CidrTextChars(Host(ip));
    }
  }

  // ---------- sources one policy grants ----------

  function Granted(pol: Policy, sources: seq<AclDev>, dst: string): seq<string> {
    if sources == [] then []
    else
      var s := sources[|sources| - 1];
      Granted(pol, sources[..|sources| - 1], dst) +
      if s.cidr != dst && TagMatch(pol.srcTags, s.tags) then [s.cidr] else []
  }

  /** The source list of one rule; a device never needs a rule to reach itself. */
  function PolicySourcesOf(pol: Policy, sources: seq<AclDev>, dst: string): seq<string> {
    SortStrings(Granted(pol, sources, dst))
  }

  ghost predicate Grants(pol: Policy, sources: seq<AclDev>, dst: string, c: string) {
    exists s :: s in sources && s.cidr == c && c != dst && TagMatch(pol.srcTags, s.tags)
  }

  lemma {:induction false} GrantedMembers(pol: Policy, sources: seq<AclDev>, dst: string, c: string)
    ensures c in Granted(pol, sources, dst) <==> Grants(pol, sources, dst, c)
  {
    if sources != [] {
      var init, s := sources[..|sources| - 1], sources[|sources| - 1];
      assert sources == init + [s];
      GrantedMembers(pol, init, dst, c);
      assert forall x :: x in sources <==> x in init || x == s;
    }
  }

  lemma PolicySourcesMembers(pol: Policy, sources: seq<AclDev>, dst: string)
    ensures forall c :: c in PolicySourcesOf(pol, sources, dst) <==> Grants(pol, sources, dst, c)
    ensures SortedBy(PolicySourcesOf(pol, sources, dst), LexLe)
    ensures CommaFree(sources) ==> Free(PolicySourcesOf(pol, sources, dst), ',')
  {
    SortKeepsMembers(Granted(pol, sources, dst), LexLe);
    SortStringsSorts(Granted(pol, sources, dst));
    forall c ensures c in PolicySourcesOf(pol, sources, dst) <==> Grants(pol, sources, dst, c) {
      GrantedMembers(pol, sources, dst, c);
    }
  }

  // ---------- inbound rules ----------

  function FilterRulesOf(dst: AclDev, sources: seq<AclDev>, policies: seq<Policy>): seq<FilterRule> {
    if policies == [] then []
    else
      var pol := policies[|policies| - 1];
      var srcs := PolicySourcesOf(pol, sources, dst.cidr);
      FilterRulesOf(dst, sources, policies[..|policies| - 1]) +
      if pol.enabled && TagMatch(pol.dstTags, dst.tags) && srcs != []
      then [FilterRule(srcs, pol.service)] else []
  }

  /** One policy grants the source text c access to the participant dst. */
  ghost predicate PolicyGrants(pol: Policy, sources: seq<AclDev>, dst: AclDev, c: string) {
    pol.enabled && TagMatch(pol.dstTags, dst.tags) && Grants(pol, sources, dst.cidr, c)
  }

  /** The inbound rules name exactly the sources and services that policies grant. */
  lemma {:induction false} FilterRulesExact(dst: AclDev, sources: seq<AclDev>, policies: seq<Policy>, c: string, s: Service)
    ensures Lists(FilterRulesOf(dst, sources, policies), c, s) <==>
            exists pol :: pol in policies && PolicyGrants(pol, sources, dst, c) && pol.service == s
  {
    if policies != [] {
      var init, pol := policies[..|policies| - 1], policies[|policies| - 1];
      assert policies == init + [pol];
      FilterRulesExact(dst, sources, init, c, s);
      var srcs := PolicySourcesOf(pol, sources, dst.cidr);
      PolicySourcesMembers(pol, sources, dst.cidr);
      ListsSnoc(FilterRulesOf(dst, sources, init), FilterRule(srcs, pol.service), c, s);
    }
  }

  lemma ListsSnoc(rules: seq<FilterRule>, r: FilterRule, c: string, s: Service)
    ensures Lists(rules + [r], c, s) <==> Lists(rules, c, s) || (c in r.srcCidrs && r.service == s)
  {
    if c in r.srcCidrs && r.service == s {
      assert r in rules + [r];
    }
    if Lists(rules, c, s) {
      var q :| q in rules && c in q.srcCidrs && q.service == s;
      assert q in rules + [r];
    }
  }

  // ---------- forward rules ----------

  function RouteDevs(routes: seq<Prefix>, tags: seq<string>): seq<AclDev> {
    seq(|routes|, i requires 0 <= i < |routes| => AclDev(CidrText(routes[i]), tags))
  }

  function HubDsts(self: string, nodes: seq<Node>): seq<AclDev> {
    if nodes == [] then []
    else
      var n := nodes[|nodes| - 1];
      HubDsts(self, nodes[..|nodes| - 1]) +
      if n.id == self then [] else [NodeDev(n)] + RouteDevs(n.enabled, n.tags)
  }

  /** Everything self forwards to: the hub relays to all, a router into its LANs. */
  function DstsOf(self: Node, nodes: seq<Node>, statics: seq<StaticPeer>): seq<AclDev> {
    (if self.role == RoleHub
     then HubDsts(self.id, nodes) + seq(|statics|, i requires 0 <= i < |statics| => StaticDev(statics[i]))
     else []) +
    RouteDevs(self.enabled, self.tags)
  }

  /** Destinations collected under one joined source list, in order of first use. */
  datatype Groups = Groups(order: seq<string>, bySrc: map<string, seq<string>>)

  function AddDst(g: Groups, key: string, cidr: string): Groups {
    if key in g.bySrc then Groups(g.order, g.bySrc[key := g.bySrc[key] + [cidr]])
    else Groups(g.order + [key], g.bySrc[key := [cidr]])
  }

  function GroupStep(g: Groups, pol: Policy, sources: seq<AclDev>, dst: AclDev): Groups {
    var srcs := PolicySourcesOf(pol, sources, dst.cidr);
    if TagMatch(pol.dstTags, dst.tags) && srcs != [] then AddDst(g, JoinCSV(srcs), dst.cidr) else g
  }

  function GroupsOf(pol: Policy, sources: seq<AclDev>, dsts: seq<AclDev>): Groups {
    if dsts == [] then Groups([], map[])
    else GroupStep(GroupsOf(pol, sources, dsts[..|dsts| - 1]), pol, sources, dsts[|dsts| - 1])
  }

  function GroupRule(pol: Policy, g: Groups, key: string): ForwardRule
    requires key in g.bySrc
  {
    ForwardRule(Split(key, ','), SortStrings(g.bySrc[key]), pol.service)
  }

  ghost predicate OrderComplete(g: Groups) { forall k :: k in g.order <==> k in g.bySrc }

  lemma {:induction false} GroupsComplete(pol: Policy, sources: seq<AclDev>, dsts: seq<AclDev>)
    ensures OrderComplete(GroupsOf(pol, sources, dsts))
  {
    if dsts != [] {
      GroupsComplete(pol, sources, dsts[..|dsts| - 1]);
    }
  }

  function GroupRules(pol: Policy, g: Groups, order: seq<string>): seq<ForwardRule>
    requires forall k :: k in order ==> k in g.bySrc
  {
    if order == [] then []
    else GroupRules(pol, g, order[..|order| - 1]) + [GroupRule(pol, g, order[|order| - 1])]
  }

  function PolicyForwardRules(pol: Policy, sources: seq<AclDev>, dsts: seq<AclDev>): seq<ForwardRule> {
    if !pol.enabled then []
    else
      var g := GroupsOf(pol, sources, dsts);
      GroupsComplete(pol, sources, dsts);
      GroupRules(pol, g, g.order)
  }

  function ForwardRulesOf(dsts: seq<AclDev>, sources: seq<AclDev>, policies: seq<Policy>): seq<ForwardRule> {
    if policies == [] then []
    else ForwardRulesOf(dsts, sources, policies[..|policies| - 1]) +
         PolicyForwardRules(policies[|policies| - 1], sources, dsts)
  }

  /** dst was put under this key. */
  ghost predicate Keyed(pol: Policy, sources: seq<AclDev>, dst: AclDev, key: string) {
    && TagMatch(pol.dstTags, dst.tags)
    && PolicySourcesOf(pol, sources, dst.cidr) != []
    && JoinCSV(PolicySourcesOf(pol, sources, dst.cidr)) == key
  }

  ghost predicate SomeKeyed(pol: Policy, sources: seq<AclDev>, dsts: seq<AclDev>, key: string, cidr: string) {
    exists d :: d in dsts && d.cidr == cidr && Keyed(pol, sources, d, key)
  }

  /** cidr is collected under this key. */
  ghost predicate Collected(g: Groups, key: string, cidr: string) {
    key in g.bySrc && cidr in g.bySrc[key]
  }

  lemma GroupStepMembers(g: Groups, pol: Policy, sources: seq<AclDev>, d: AclDev, key: string, cidr: string)
    ensures Collected(GroupStep(g, pol, sources, d), key, cidr) <==>
      Collected(g, key, cidr) || (d.cidr == cidr && Keyed(pol, sources, d, key))
  {
  }

  lemma {:induction false} GroupsMembers(pol: Policy, sources: seq<AclDev>, dsts: seq<AclDev>, key: string, cidr: string)
    ensures Collected(GroupsOf(pol, sources, dsts), key, cidr) <==> SomeKeyed(pol, sources, dsts, key, cidr)
  {
    if dsts != [] {
      var init, d := dsts[..|dsts| - 1], dsts[|dsts| - 1];
      var g := GroupsOf(pol, sources, init);
      calc {
        Collected(GroupsOf(pol, sources, dsts), key, cidr);
      <==>
        Collected(GroupStep(g, pol, sources, d), key, cidr);
      <==> { GroupStepMembers(g, pol, sources, d, key, cidr); }
        Collected(g, key, cidr) || (d.cidr == cidr && Keyed(pol, sources, d, key));
      <==> { GroupsMembers(pol, sources, init, key, cidr); }
        SomeKeyed(pol, sources, init, key, cidr) || (d.cidr == cidr && Keyed(pol, sources, d, key));
      <==> { SomeKeyedSnoc(pol, sources, init, d, key, cidr); }
        SomeKeyed(pol, sources, init + [d], key, cidr);
      <==> { assert dsts == init + [d]; }
        SomeKeyed(pol, sources, dsts, key, cidr);
      }
    }
  }

  lemma SomeKeyedSnoc(pol: Policy, sources: seq<AclDev>, dsts: seq<AclDev>, d: AclDev, key: string, cidr: string)
    ensures SomeKeyed(pol, sources, dsts + [d], key, cidr) <==>
      SomeKeyed(pol, sources, dsts, key, cidr) || (d.cidr == cidr && Keyed(pol, sources, d, key))
  {
    if SomeKeyed(pol, sources, dsts, key, cidr) {
      var e :| e in dsts && e.cidr == cidr && Keyed(pol, sources, e, key);
      assert e in dsts + [d];
    }
    if d.cidr == cidr && Keyed(pol, sources, d, key) {
      assert d in dsts + [d];
    }
  }

  lemma {:induction false} GroupRulesMembers(pol: Policy, g: Groups, order: seq<string>, r: ForwardRule)
    requires forall k :: k in order ==> k in g.bySrc
    ensures r in GroupRules(pol, g, order) <==> exists k :: k in order && r == GroupRule(pol, g, k)
  {
    if order != [] {
      var init, k0 := order[..|order| - 1], order[|order| - 1];
      assert order == init + [k0];
      GroupRulesMembers(pol, g, init, r);
      assert forall k :: k in order <==> k in init || k == k0;
    }
  }

  /** Splitting a group's key recovers the source list of each of its members. */
  lemma KeySources(pol: Policy, sources: seq<AclDev>, d: AclDev, key: string)
    requires CommaFree(sources) && Keyed(pol, sources, d, key)
    ensures Split(key, ',') == PolicySourcesOf(pol, sources, d.cidr)
  {
    PolicySourcesMembers(pol, sources, d.cidr);
    SplitJoin(PolicySourcesOf(pol, sources, d.cidr), ',');
  }

  /** Rules list their sources and destinations in byte order, so equal rule sets print alike. */
  lemma GroupRulesSorted(pol: Policy, sources: seq<AclDev>, dsts: seq<AclDev>, r: ForwardRule)
    requires CommaFree(sources) && r in PolicyForwardRules(pol, sources, dsts)
    ensures SortedBy(r.srcCidrs, LexLe) && SortedBy(r.dstCidrs, LexLe)
  {
    var g := GroupsOf(pol, sources, dsts);
    GroupsComplete(pol, sources, dsts);
    GroupRulesMembers(pol, g, g.order, r);
    var key :| key in g.order && r == GroupRule(pol, g, key);
    SortStringsSorts(g.bySrc[key]);
    GroupsNonEmpty(pol, sources, dsts, key);
    assert Collected(g, key, g.bySrc[key][0]);
    GroupsMembers(pol, sources, dsts, key, g.bySrc[key][0]);
    var d :| d in dsts && d.cidr == g.bySrc[key][0] && Keyed(pol, sources, d, key);
    KeySources(pol, sources, d, key);
    PolicySourcesMembers(pol, sources, d.cidr);
  }

  lemma {:induction false} GroupsNonEmpty(pol: Policy, sources: seq<AclDev>, dsts: seq<AclDev>, key: string)
    ensures var g := GroupsOf(pol, sources, dsts); key in g.bySrc ==> g.bySrc[key] != []
  {
    if dsts != [] {
      GroupsNonEmpty(pol, sources, dsts[..|dsts| - 1], key);
    }
  }

  /** A rule of this policy only names pairs the policy grants. */
  lemma GroupingSound(pol: Policy, sources: seq<AclDev>, dsts: seq<AclDev>, r: ForwardRule, c: string, e: string)
    requires CommaFree(sources) && r in PolicyForwardRules(pol, sources, dsts)
    requires c in r.srcCidrs && e in r.dstCidrs
    ensures r.service == pol.service
    ensures exists d :: d in dsts && d.cidr == e && PolicyGrants(pol, sources, d, c)
  {
    var g := GroupsOf(pol, sources, dsts);
    GroupsComplete(pol, sources, dsts);
    GroupRulesMembers(pol, g, g.order, r);
    var key :| key in g.order && r == GroupRule(pol, g, key);
    SortKeepsMembers(g.bySrc[key], LexLe);
    GroupsMembers(pol, sources, dsts, key, e);
    var d :| d in dsts && d.cidr == e && Keyed(pol, sources, d, key);
    KeySources(pol, sources, d, key);
    PolicySourcesMembers(pol, sources, d.cidr);
    assert PolicyGrants(pol, sources, d, c);
  }

  /** Every pair the policy grants is named by one of its rules. */
  lemma GroupingComplete(pol: Policy, sources: seq<AclDev>, dsts: seq<AclDev>, d: AclDev, c: string)
    requires CommaFree(sources) && d in dsts && PolicyGrants(pol, sources, d, c)
    ensures ListsPair(PolicyForwardRules(pol, sources, dsts), c, d.cidr, pol.service)
  {
    var g := GroupsOf(pol, sources, dsts);
    GroupsComplete(pol, sources, dsts);
    PolicySourcesMembers(pol, sources, d.cidr);
    var key := JoinCSV(PolicySourcesOf(pol, sources, d.cidr));
    assert Keyed(pol, sources, d, key);
    GroupsMembers(pol, sources, dsts, key, d.cidr);
    KeySources(pol, sources, d, key);
    SortKeepsMembers(g.bySrc[key], LexLe);
    var r := GroupRule(pol, g, key);
    GroupRulesMembers(pol, g, g.order, r);
    assert c in r.srcCidrs && d.cidr in r.dstCidrs;
  }

  /** Grouping neither adds nor loses a source-destination pair, for one policy. */
  lemma GroupingExact(pol: Policy, sources: seq<AclDev>, dsts: seq<AclDev>, c: string, e: string, s: Service)
    requires CommaFree(sources)
    ensures ListsPair(PolicyForwardRules(pol, sources, dsts), c, e, s) <==>
            pol.service == s && exists d :: d in dsts && d.cidr == e && PolicyGrants(pol, sources, d, c)
  {
    var rules := PolicyForwardRules(pol, sources, dsts);
    if ListsPair(rules, c, e, s) {
      var r :| r in rules && c in r.srcCidrs && e in r.dstCidrs && r.service == s;
      GroupingSound(pol, sources, dsts, r, c, e);
    }
    forall d | d in dsts && d.cidr == e && PolicyGrants(pol, sources, d, c)
      ensures ListsPair(rules, c, e, pol.service)
    {
      GroupingComplete(pol, sources, dsts, d, c);
    }
  }

  /** Some policy for service s grants c access to some destination written e. */
  ghost predicate PairGranted(dsts: seq<AclDev>, sources: seq<AclDev>, policies: seq<Policy>, c: string, e: string, s: Service) {
    exists pol, d :: pol in policies && d in dsts && d.cidr == e && PolicyGrants(pol, sources, d, c) && pol.service == s
  }

  /** The grouped forward rules name exactly the pairs that policies grant. */
  lemma {:induction false} ForwardRulesExact(dsts: seq<AclDev>, sources: seq<AclDev>, policies: seq<Policy>, c: string, e: string, s: Service)
    requires CommaFree(sources)
    ensures ListsPair(ForwardRulesOf(dsts, sources, policies), c, e, s) <==> PairGranted(dsts, sources, policies, c, e, s)
  {
    if policies != [] {
      var init, pol := policies[..|policies| - 1], policies[|policies| - 1];
      ForwardRulesExact(dsts, sources, init, c, e, s);
      GroupingExact(pol, sources, dsts, c, e, s);
      var xs, ys := ForwardRulesOf(dsts, sources, init), PolicyForwardRules(pol, sources, dsts);
      assert ListsPair(xs + ys, c, e, s) <==> ListsPair(xs, c, e, s) || ListsPair(ys, c, e, s) by {
        assert forall r :: r in xs + ys <==> r in xs || r in ys;
      }
      assert policies == init + [pol];
      assert forall p :: p in policies <==> p in init || p == pol;
    }
  }

  // ---------- verdicts between devices ----------

  /** dev is the one participant that holds address a. */
  ghost predicate OnlyHolder(devs: seq<AclDev>, dev: AclDev, a: Addr) {
    dev in devs && CidrHas(dev.cidr, a) && forall x :: x in devs && CidrHas(x.cidr, a) ==> x == dev
  }

  lemma GrantsToAllows(pol: Policy, sources: seq<AclDev>, src: AclDev, dst: AclDev, a: Addr, c: string)
    requires OnlyHolder(sources, src, a) && src.cidr != dst.cidr && CidrHas(c, a)
    ensures PolicyGrants(pol, sources, dst, c) ==> TagMatch(pol.srcTags, src.tags)
    ensures c == src.cidr && pol.enabled && TagMatch(pol.srcTags, src.tags) && TagMatch(pol.dstTags, dst.tags)
            ==> PolicyGrants(pol, sources, dst, c)
  {
    if PolicyGrants(pol, sources, dst, c) {
      var s :| s in sources && s.cidr == c && c != dst.cidr && TagMatch(pol.srcTags, s.tags);
      assert s == src;
    }
  }

  /** What a node's own inbound rules admit from another device is what policies allow. */
  lemma FilterVerdict(dst: AclDev, sources: seq<AclDev>, policies: seq<Policy>, src: AclDev, a: Addr, l4: L4)
    requires OnlyHolder(sources, src, a) && src.cidr != dst.cidr
    ensures FilterAdmits(FilterRulesOf(dst, sources, policies), a, l4) <==> PolicyAllows(policies, src.tags, dst.tags, l4)
  {
    var rules := FilterRulesOf(dst, sources, policies);
    FilterAdmitsIff(rules, a, l4);
    forall c, s | Lists(rules, c, s) && CidrHas(c, a) && L4Match(s, l4)
      ensures PolicyAllows(policies, src.tags, dst.tags, l4)
    {
      FilterRulesExact(dst, sources, policies, c, s);
      var pol :| pol in policies && PolicyGrants(pol, sources, dst, c) && pol.service == s;
      GrantsToAllows(pol, sources, src, dst, a, c);
    }
    forall pol | pol in policies && pol.enabled && TagMatch(pol.srcTags, src.tags) && TagMatch(pol.dstTags, dst.tags)
                 && L4Match(pol.service, l4)
      ensures FilterAdmits(rules, a, l4)
    {
      GrantsToAllows(pol, sources, src, dst, a, src.cidr);
      FilterRulesExact(dst, sources, policies, src.cidr, pol.service);
      assert Lists(rules, src.cidr, pol.service);
    }
  }

  /** A forwarder admits a flow iff policies allow it towards some destination that holds the address. */
  lemma ForwardMeaning(dsts: seq<AclDev>, sources: seq<AclDev>, policies: seq<Policy>, src: AclDev, a: Addr, b: Addr, l4: L4)
    requires CommaFree(sources) && OnlyHolder(sources, src, a)
    requires forall d :: d in dsts && CidrHas(d.cidr, b) ==> d.cidr != src.cidr
    ensures ForwardAdmits(ForwardRulesOf(dsts, sources, policies), a, b, l4) <==>
            exists d :: d in dsts && CidrHas(d.cidr, b) && PolicyAllows(policies, src.tags, d.tags, l4)
  {
    var rules := ForwardRulesOf(dsts, sources, policies);
    ForwardAdmitsIff(rules, a, b, l4);
    forall c, e, s | ListsPair(rules, c, e, s) && CidrHas(c, a) && CidrHas(e, b) && L4Match(s, l4)
      ensures exists d :: d in dsts && CidrHas(d.cidr, b) && PolicyAllows(policies, src.tags, d.tags, l4)
    {
      ForwardRulesExact(dsts, sources, policies, c, e, s);
      var pol, d :| pol in policies && d in dsts && d.cidr == e && PolicyGrants(pol, sources, d, c) && pol.service == s;
      GrantsToAllows(pol, sources, src, d, a, c);
      assert PolicyAllows(policies, src.tags, d.tags, l4);
    }
    forall d | d in dsts && CidrHas(d.cidr, b) && PolicyAllows(policies, src.tags, d.tags, l4)
      ensures ForwardAdmits(rules, a, b, l4)
    {
      AllowedIsListed(dsts, sources, policies, src, d, a, l4);
    }
  }

  lemma AllowedIsListed(dsts: seq<AclDev>, sources: seq<AclDev>, policies: seq<Policy>, src: AclDev, d: AclDev, a: Addr, l4: L4)
    requires CommaFree(sources) && OnlyHolder(sources, src, a) && d in dsts && d.cidr != src.cidr
    requires PolicyAllows(policies, src.tags, d.tags, l4)
    ensures exists s :: ListsPair(ForwardRulesOf(dsts, sources, policies), src.cidr, d.cidr, s) && L4Match(s, l4)
  {
    var pol :| pol in policies && pol.enabled && TagMatch(pol.srcTags, src.tags) && TagMatch(pol.dstTags, d.tags) && L4Match(pol.service, l4);
    GrantsToAllows(pol, sources, src, d, a, src.cidr);
    assert PairGranted(dsts, sources, policies, src.cidr, d.cidr, pol.service);
    ForwardRulesExact(dsts, sources, policies, src.cidr, d.cidr, pol.service);
    assert ListsPair(ForwardRulesOf(dsts, sources, policies), src.cidr, d.cidr, pol.service);
  }

  /** What a forwarder admits between two devices is what policies allow. */
  lemma ForwardVerdict(dsts: seq<AclDev>, sources: seq<AclDev>, policies: seq<Policy>, src: AclDev, dst: AclDev, a: Addr, b: Addr, l4: L4)
    requires CommaFree(sources)
    requires OnlyHolder(sources, src, a) && OnlyHolder(dsts, dst, b) && src.cidr != dst.cidr
    ensures ForwardAdmits(ForwardRulesOf(dsts, sources, policies), a, b, l4) <==>
            PolicyAllows(policies, src.tags, dst.tags, l4)
  {
    ForwardMeaning(dsts, sources, policies, src, a, b, l4);
  }

  /** Relayed traffic is checked twice with one meaning: hub and destination agree. */
  lemma HubAgreesWithDestination(dsts: seq<AclDev>, sources: seq<AclDev>, policies: seq<Policy>, src: AclDev, dst: AclDev, a: Addr, b: Addr, l4: L4)
    requires CommaFree(sources)
    requires OnlyHolder(sources, src, a) && OnlyHolder(dsts, dst, b) && src.cidr != dst.cidr
    ensures ForwardAdmits(ForwardRulesOf(dsts, sources, policies), a, b, l4) <==>
            FilterAdmits(FilterRulesOf(dst, sources, policies), a, l4)
  {
    FilterVerdict(dst, sources, policies, src, a, l4);
    ForwardVerdict(dsts, sources, policies, src, dst, a, b, l4);
  }

  lemma {:induction false} HubDstsMembers(self: string, nodes: seq<Node>, d: AclDev)
    ensures d in HubDsts(self, nodes) <==>
      exists n :: n in nodes && n.id != self && (d == NodeDev(n) || d in RouteDevs(n.enabled, n.tags))
  {
    if nodes != [] {
      var init, m := nodes[..|nodes| - 1], nodes[|nodes| - 1];
      assert nodes == init + [m];
      HubDstsMembers(self, init, d);
      assert forall n :: n in nodes <==> n in init || n == m;
    }
  }

  lemma RouteDevsMembers(routes: seq<Prefix>, tags: seq<string>, d: AclDev)
    ensures d in RouteDevs(routes, tags) <==> exists r :: r in routes && d == AclDev(CidrText(r), tags)
  {
    var devs := RouteDevs(routes, tags);
    forall i | 0 <= i < |routes| ensures devs[i] == AclDev(CidrText(routes[i]), tags) && devs[i] in devs {
    }
    forall r | r in routes ensures AclDev(CidrText(r), tags) in devs {
      var i :| 0 <= i < |routes| && routes[i] == r;
      assert devs[i] == AclDev(CidrText(r), tags);
    }
  }

  /** Whatever a subnet router admits into its LANs, the hub admits on the way there. */
  lemma RouterWithinHub(hub: Node, router: Node, nodes: seq<Node>, statics: seq<StaticPeer>, policies: seq<Policy>, a: Addr, b: Addr, l4: L4)
    requires hub.role == RoleHub && router in nodes && router.role == RoleNode && router.id != hub.id
    ensures var sources := SourcesOf(nodes, statics);
      ForwardAdmits(ForwardRulesOf(DstsOf(router, nodes, statics), sources, policies), a, b, l4) ==>
      ForwardAdmits(ForwardRulesOf(DstsOf(hub, nodes, statics), sources, policies), a, b, l4)
  {
    var sources := SourcesOf(nodes, statics);
    SourcesCommaFree(nodes, statics);
    var rd, hd := DstsOf(router, nodes, statics), DstsOf(hub, nodes, statics);
    var rs, hs := ForwardRulesOf(rd, sources, policies), ForwardRulesOf(hd, sources, policies);
    ForwardAdmitsIff(rs, a, b, l4);
    ForwardAdmitsIff(hs, a, b, l4);
    forall c, e, s | ListsPair(rs, c, e, s) && CidrHas(c, a) && CidrHas(e, b) && L4Match(s, l4)
      ensures ListsPair(hs, c, e, s)
    {
      ForwardRulesExact(rd, sources, policies, c, e, s);
      var pol, d :| pol in policies && d in rd && d.cidr == e && PolicyGrants(pol, sources, d, c) && pol.service == s;
      assert d in RouteDevs(router.enabled, router.tags);
      HubDstsMembers(hub.id, nodes, d);
      assert d in hd;
      assert PairGranted(hd, sources, policies, c, e, s);
      ForwardRulesExact(hd, sources, policies, c, e, s);
    }
  }

  // ---------- the compiler's loops ----------

  method Intersects(a: seq<string>, b: seq<string>) returns (r: bool)
    ensures r <==> exists t :: t in a && t in b
  {
    var found: set<string> := {};
    for i := 0 to |a|
      invariant forall x :: x in found <==> x in a[..i]
    {
      found := found + {a[i]};
    }
    assert a[..|a|] == a;
    for i := 0 to |b|
      invariant forall j :: 0 <= j < i ==> b[j] !in a
    {
      if b[i] in found {
        return true;
      }
    }
    return false;
  }

  method MatchTag(policyTags: seq<string>, deviceTags: seq<string>) returns (r: bool)
    ensures r == TagMatch(policyTags, deviceTags)
  {
    if |policyTags| == 0 {
      return true;
    }
    r := Intersects(policyTags, deviceTags);
  }

  method AclSources(nodes: seq<Node>, statics: seq<StaticPeer>) returns (out: seq<AclDev>)
    ensures out == SourcesOf(nodes, statics)
  {
    out := [];
    for i := 0 to |nodes|
      invariant out == SourcesOf(nodes[..i], [])
    {
      out := out + [NodeDev(nodes[i])];
    }
    assert nodes[..|nodes|] == nodes;
    for i := 0 to |statics|
      invariant out == SourcesOf(nodes, statics[..i])
    {
      out := out + [StaticDev(statics[i])];
    }
    assert statics[..|statics|] == statics;
  }

  method PolicySources(pol: Policy, sources: seq<AclDev>, dstCidr: string) returns (out: seq<string>)
    ensures out == PolicySourcesOf(pol, sources, dstCidr)
  {
    out := [];
    for i := 0 to |sources|
      invariant out == Granted(pol, sources[..i], dstCidr)
    {
      assert sources[..i + 1][..i] == sources[..i];
      var s := sources[i];
      if s.cidr != dstCidr {
        var ok := MatchTag(pol.srcTags, s.tags);
        if ok {
          out := out + [s.cidr];
        }
      }
    }
    assert sources[..|sources|] == sources;
    out := SortStrings(out);
  }

  method ComputeFilterRules(dst: Node, nodes: seq<Node>, statics: seq<StaticPeer>, policies: seq<Policy>)
    returns (rules: seq<FilterRule>)
    ensures rules == FilterRulesOf(NodeDev(dst), SourcesOf(nodes, statics), policies)
  {
    var sources := AclSources(nodes, statics);
    var dev := NodeDev(dst);
    rules := [];
    for i := 0 to |policies|
      invariant rules == FilterRulesOf(dev, sources, policies[..i])
    {
      assert policies[..i + 1][..i] == policies[..i];
      var pol := policies[i];
      var hit := MatchTag(pol.dstTags, dev.tags);
      if pol.enabled && hit {
        var srcs := PolicySources(pol, sources, dev.cidr);
        if |srcs| > 0 {
          rules := rules + [FilterRule(srcs, pol.service)];
        }
      }
    }
    assert policies[..|policies|] == policies;
  }

  method ForwardDsts(self: Node, nodes: seq<Node>, statics: seq<StaticPeer>) returns (dsts: seq<AclDev>)
    ensures dsts == DstsOf(self, nodes, statics)
  {
    dsts := [];
    if self.role == RoleHub {
      for i := 0 to |nodes|
        invariant dsts == HubDsts(self.id, nodes[..i])
      {
        assert nodes[..i + 1][..i] == nodes[..i];
        var n := nodes[i];
        if n.id != self.id {
          dsts := dsts + ([NodeDev(n)] + RouteDevs(n.enabled, n.tags));
        }
      }
      assert nodes[..|nodes|] == nodes;
      dsts := dsts + seq(|statics|, i requires 0 <= i < |statics| => StaticDev(statics[i]));
    }
    dsts := dsts + RouteDevs(self.enabled, self.tags);
  }

  lemma GroupsSnoc(pol: Policy, sources: seq<AclDev>, dsts: seq<AclDev>, i: nat)
    requires i < |dsts|
    ensures GroupsOf(pol, sources, dsts[..i + 1]) == GroupStep(GroupsOf(pol, sources, dsts[..i]), pol, sources, dsts[i])
  {
    assert dsts[..i + 1][..i] == dsts[..i];
  }

  method FileUnder(order: seq<string>, bySrc: map<string, seq<string>>, key: string, cidr: string)
    returns (order': seq<string>, bySrc': map<string, seq<string>>)
    ensures Groups(order', bySrc') == AddDst(Groups(order, bySrc), key, cidr)
  {
    order', bySrc' := order, bySrc;
    if key !in bySrc {
      order' := order + [key];
      bySrc' := bySrc[key := [cidr]];
    } else {
      bySrc' := bySrc[key := bySrc[key] + [cidr]];
    }
  }

  method GroupDsts(pol: Policy, sources: seq<AclDev>, dsts: seq<AclDev>) returns (order: seq<string>, bySrc: map<string, seq<string>>)
    ensures Groups(order, bySrc) == GroupsOf(pol, sources, dsts)
  {
    order, bySrc := [], map[];
    for i := 0 to |dsts|
      invariant Groups(order, bySrc) == GroupsOf(pol, sources, dsts[..i])
    {
      GroupsSnoc(pol, sources, dsts, i);
      var hit := MatchTag(pol.dstTags, dsts[i].tags);
      if hit {
        var srcs := PolicySources(pol, sources, dsts[i].cidr);
        if |srcs| > 0 {
          order, bySrc := FileUnder(order, bySrc, JoinCSV(srcs), dsts[i].cidr);
        }
      }
    }
    assert dsts[..|dsts|] == dsts;
  }

  method ComputeForwardRules(self: Node, nodes: seq<Node>, statics: seq<StaticPeer>, policies: seq<Policy>)
    returns (rules: seq<ForwardRule>)
    ensures rules == ForwardRulesOf(DstsOf(self, nodes, statics), SourcesOf(nodes, statics), policies)
  {
    var dsts := ForwardDsts(self, nodes, statics);
    var sources := AclSources(nodes, statics);
    rules := [];
    for i := 0 to |policies|
      invariant rules == ForwardRulesOf(dsts, sources, policies[..i])
    {
      assert policies[..i + 1][..i] == policies[..i];
      var pol := policies[i];
      if pol.enabled {
        var order, bySrc := GroupDsts(pol, sources, dsts);
        var grouped := RulesInOrder(pol, order, bySrc, sources, dsts);
        rules := rules + grouped;
      } else {
        assert PolicyForwardRules(pol, sources, dsts) == [];
      }
    }
    assert policies[..|policies|] == policies;
  }

  method RulesInOrder(pol: Policy, order: seq<string>, bySrc: map<string, seq<string>>, ghost sources: seq<AclDev>, ghost dsts: seq<AclDev>)
    returns (rules: seq<ForwardRule>)
    requires pol.enabled && Groups(order, bySrc) == GroupsOf(pol, sources, dsts)
    ensures rules == PolicyForwardRules(pol, sources, dsts)
  {
    GroupsComplete(pol, sources, dsts);
    ghost var g := Groups(order, bySrc);
    rules := [];
    for j := 0 to |order|
      invariant rules == GroupRules(pol, g, order[..j])
    {
      assert order[..j + 1][..j] == order[..j];
      var key := order[j];
      assert key in g.order;
      rules := rules + [ForwardRule(Split(key, ','), SortStrings(bySrc[key]), pol.service)];
    }
    assert order[..|order|] == order;
  }

  /** Tag labels as stored: slugs of the given tags, sorted, none empty, none twice. */
  method NormalizeTags(lower: char -> char, tags: seq<string>) returns (out: seq<string>)
    ensures forall l :: l in out <==> l != "" && exists t :: t in tags && l == SlugOf(MapLower(lower, t))
    ensures forall i, j :: 0 <= i < j < |out| ==> out[i] != out[j]
    ensures SortedBy(out, LexLe)
    ensures forall l :: l in out ==> IsLabel(l)
  {
    var seen: set<string> := {};
    out := [];
    for i := 0 to |tags|
      invariant forall l :: l in out <==> l in seen
      invariant forall l :: l in seen <==> l != "" && exists j :: 0 <= j < i && l == SlugOf(MapLower(lower, tags[j]))
      invariant forall x, y :: 0 <= x < y < |out| ==> out[x] != out[y]
      invariant forall l :: l in out ==> IsLabel(l)
    {
      var tag := Slug(lower, tags[i]);
      if tag != "" && tag !in seen {
        seen := seen + {tag};
        out := out + [tag];
      }
    }
    SortStringsSorts(out);
    SortKeepsMembers(out, LexLe);
    SortKeepsDistinct(out);
    out := SortStrings(out);
  }

  lemma SortKeepsDistinct(xs: seq<string>)
    requires forall i, j :: 0 <= i < j < |xs| ==> xs[i] != xs[j]
    ensures var r := SortStrings(xs); forall i, j :: 0 <= i < j < |r| ==> r[i] != r[j]
  {
    SortPermutes(xs, LexLe);
    var r := SortStrings(xs);
    forall i, j | 0 <= i < j < |r| ensures r[i] != r[j] {
      if r[i] == r[j] {
        MultiplicityTwo(r, i, j);
        MultiplicityOne(xs, r[i]);
      }
    }
  }

  lemma MultiplicityTwo(xs: seq<string>, i: nat, j: nat)
    requires i < j < |xs| && xs[i] == xs[j]
    ensures multiset(xs)[xs[i]] >= 2
  {
    assert xs == xs[..j] + xs[j..];
    assert xs[i] in xs[..j] && xs[j] in xs[j..];
  }

  lemma {:induction false} MultiplicityOne(xs: seq<string>, x: string)
    requires forall i, j :: 0 <= i < j < |xs| ==> xs[i] != xs[j]
    ensures multiset(xs)[x] <= 1
  {
    if xs != [] {
      MultiplicityOne(xs[1..], x);
      assert xs == [xs[0]] + xs[1..];
      assert xs[0] == x ==> x !in xs[1..];
    }
  }
}
