/** Distinct host names for every device (buildHosts in internal/coordinator/netmap.go). */
module Names {
  import opened Text
  import opened Net
  import opened Store

  /** name.kai and the overlay address behind it. */
  datatype HostEntry = HostEntry(name: string, ip: Addr)

  datatype Device = Device(name: string, ip: Addr)

  const SUFFIX := ".kai"

  function DevicesOf(nodes: seq<Node>, statics: seq<StaticPeer>): seq<Device> {
    seq(|nodes|, i requires 0 <= i < |nodes| => Device(nodes[i].name, nodes[i].ip)) +
    seq(|statics|, i requires 0 <= i < |statics| => Device(statics[i].name, statics[i].ip))
  }

  /** sanitizeHostLabel. */
  function BaseLabel(lower: char -> char, name: string): string {
    var slug := SlugOf(MapLower(lower, name));
    if slug != "" then slug else "device"
  }

  /** The i-th name tried for a base: base, base-2, base-3, ... */
  function Candidate(base: string, i: nat): string {
    if i <= 1 then base else base + "-" + Dec(i)
  }

  lemma CandidateInjective(base: string, i: nat, j: nat)
    requires 1 <= i < j
    ensures Candidate(base, i) != Candidate(base, j)
  {
    if i >= 2 && Candidate(base, i) == Candidate(base, j) {
      var s, t := Candidate(base, i), Candidate(base, j);
      assert s[|base| + 1..] == Dec(i) && t[|base| + 1..] == Dec(j);
      DecInjective(i, j);
    }
  }

  /** First candidate from i on that is not taken; `rest` holds the taken labels not yet met. */
  function Search(base: string, i: nat, rest: set<string>): string
    decreases |rest|
  {
    var c := Candidate(base, i);
    if c in rest then Search(base, i + 1, rest - {c}) else c
  }

  function Pick(base: string, used: set<string>): string { Search(base, 1, used) }

  ghost predicate Tried(base: string, i: nat, l: string) {
    exists j :: 1 <= j < i && l == Candidate(base, j)
  }

  /** rest is used minus candidates already tried. */
  ghost predicate Untried(base: string, i: nat, used: set<string>, rest: set<string>) {
    rest <= used && forall l :: l in used && l !in rest ==> Tried(base, i, l)
  }

  lemma UntriedStep(base: string, i: nat, used: set<string>, rest: set<string>)
    requires 1 <= i && Untried(base, i, used, rest)
    ensures Untried(base, i + 1, used, rest - {Candidate(base, i)})
    ensures Candidate(base, i) in used <==> Candidate(base, i) in rest
  {
    var c := Candidate(base, i);
    forall l | l in used && l !in rest - {c} ensures Tried(base, i + 1, l) {
      if l !in rest {
        assert Tried(base, i, l);
        var j :| 1 <= j < i && l == Candidate(base, j);
        assert 1 <= j < i + 1;
      } else {
        assert l == Candidate(base, i);
      }
    }
    if c in used && c !in rest {
      assert Tried(base, i, c);
      var j :| 1 <= j < i && c == Candidate(base, j);
      CandidateInjective(base, j, i);
    }
  }

  /** The search meets a free label: its candidates are distinct and the taken ones finite. */
  lemma {:induction false} SearchFinds(base: string, i: nat, used: set<string>, rest: set<string>)
    returns (k: nat)
    requires 1 <= i && Untried(base, i, used, rest)
    ensures Search(base, i, rest) !in used
    ensures i <= k && Search(base, i, rest) == Candidate(base, k)
    ensures forall j :: i <= j < k ==> Candidate(base, j) in used
    decreases |rest|
  {
    UntriedStep(base, i, used, rest);
    if Candidate(base, i) in rest {
      k := SearchFinds(base, i + 1, used, rest - {Candidate(base, i)});
    } else {
      k := i;
    }
  }

  /** Labels in enrolment order, each avoiding the ones before it. */
  function LabelsOf(lower: char -> char, devices: seq<Device>): (ls: seq<string>)
    ensures |ls| == |devices|
  {
    if devices == [] then []
    else
      var n := |devices| - 1;
      var before := LabelsOf(lower, devices[..n]);
      before + [Pick(BaseLabel(lower, devices[n].name), set l | l in before)]
  }

  function HostsOf(lower: char -> char, nodes: seq<Node>, statics: seq<StaticPeer>): seq<HostEntry> {
    var devices := DevicesOf(nodes, statics);
    var labels := LabelsOf(lower, devices);
    seq(|devices|, i requires 0 <= i < |devices| => HostEntry(labels[i] + SUFFIX, devices[i].ip))
  }

  ghost predicate Distinct(xs: seq<string>) { forall i, j :: 0 <= i < j < |xs| ==> xs[i] != xs[j] }

  /** The least free candidate is picked. */
  lemma PickIsFree(base: string, used: set<string>) returns (k: nat)
    ensures Pick(base, used) !in used
    ensures 1 <= k && Pick(base, used) == Candidate(base, k)
    ensures forall j :: 1 <= j < k ==> Candidate(base, j) in used
  {
    k := SearchFinds(base, 1, used, used);
  }

  lemma {:induction false} LabelsDistinct(lower: char -> char, devices: seq<Device>)
    ensures Distinct(LabelsOf(lower, devices))
  {
    if devices != [] {
      var n := |devices| - 1;
      var before := LabelsOf(lower, devices[..n]);
      LabelsDistinct(lower, devices[..n]);
      var _ := PickIsFree(BaseLabel(lower, devices[n].name), set l | l in before);
    }
  }

  lemma NumberedLabel(base: string, d: string)
    requires base != "" && IsLabel(base) && d != "" && forall i :: 0 <= i < |d| ==> IsDigit(d[i])
    ensures IsLabel(base + "-" + d)
  {
    var l := base + "-" + d;
    forall k | 0 <= k < |l| ensures l[k] == (if k < |base| then base[k] else if k == |base| then '-' else d[k - |base| - 1]) {
    }
    assert l[|l| - 1] == d[|d| - 1];
    forall k | 0 <= k < |l| - 1 ensures l[k] != '-' || l[k + 1] != '-' {
      if k >= |base| {
        assert IsDigit(d[k - |base|]) && l[k + 1] == d[k - |base|];
      }
    }
  }

  lemma CandidateIsLabel(lower: char -> char, name: string, i: nat)
    ensures Candidate(BaseLabel(lower, name), i) != "" && IsLabel(Candidate(BaseLabel(lower, name), i))
  {
    var base := BaseLabel(lower, name);
    SlugIsProjection(MapLower(lower, name));
    assert IsLabel("device");
    if i > 1 {
      NumberedLabel(base, Dec(i));
    }
  }

  lemma {:induction false} LabelsAreLabels(lower: char -> char, devices: seq<Device>)
    ensures forall i :: 0 <= i < |devices| ==> LabelsOf(lower, devices)[i] != "" && IsLabel(LabelsOf(lower, devices)[i])
  {
    if devices != [] {
      var n := |devices| - 1;
      var before := LabelsOf(lower, devices[..n]);
      LabelsAreLabels(lower, devices[..n]);
      PickIsLabel(lower, devices[n].name, set l | l in before);
      assert LabelsOf(lower, devices) == before + [Pick(BaseLabel(lower, devices[n].name), set l | l in before)];
    }
  }

  lemma PickIsLabel(lower: char -> char, name: string, used: set<string>)
    ensures Pick(BaseLabel(lower, name), used) != "" && IsLabel(Pick(BaseLabel(lower, name), used))
  {
    var k := PickIsFree(BaseLabel(lower, name), used);
    CandidateIsLabel(lower, name, k);
  }

  lemma SuffixKeepsDistinct(a: string, b: string)
    requires a != b
    ensures a + SUFFIX != b + SUFFIX
  {
    if |a| == |b| {
      var i :| 0 <= i < |a| && a[i] != b[i];
      assert (a + SUFFIX)[i] != (b + SUFFIX)[i];
    }
  }

  /** A non-empty DNS label under the .kai suffix. */
  ghost predicate IsHostName(name: string) { exists l :: l != "" && IsLabel(l) && name == l + SUFFIX }

  /** Every device gets a name of its own, whatever the devices are called. */
  lemma HostsDistinct(lower: char -> char, nodes: seq<Node>, statics: seq<StaticPeer>)
    ensures var hosts := HostsOf(lower, nodes, statics);
      && |hosts| == |nodes| + |statics|
      && (forall i, j :: 0 <= i < j < |hosts| ==> hosts[i].name != hosts[j].name)
      && (forall i :: 0 <= i < |hosts| ==>
            hosts[i].ip == (if i < |nodes| then nodes[i].ip else statics[i - |nodes|].ip))
      && (forall i :: 0 <= i < |hosts| ==> IsHostName(hosts[i].name))
  {
    var devices := DevicesOf(nodes, statics);
    var labels := LabelsOf(lower, devices);
    var hosts := HostsOf(lower, nodes, statics);
    LabelsDistinct(lower, devices);
    LabelsAreLabels(lower, devices);
    forall i, j | 0 <= i < j < |hosts| ensures hosts[i].name != hosts[j].name {
      SuffixKeepsDistinct(labels[i], labels[j]);
    }
    forall i | 0 <= i < |hosts| ensures IsHostName(hosts[i].name) {
      assert hosts[i].name == labels[i] + SUFFIX;
    }
  }

  /** What a device is called before duplicates are told apart: its own name if that is a label, "device" if it has no letters. */
  lemma BaseFollowsName(lower: char -> char, name: string)
    ensures var low, base := MapLower(lower, name), BaseLabel(lower, name);
      && (Letters(low) == "" ==> base == "device")
      && (Letters(low) != "" ==> Letters(base) == Letters(low))
      && (low != "" && IsLabel(low) ==> base == low)
  {
    SlugKeepsLetters(MapLower(lower, name));
    if IsLabel(MapLower(lower, name)) {
      LabelIsItsSlug(MapLower(lower, name));
    }
  }

  /** Label l went to one of the first i devices. */
  ghost predicate TakenBefore(ls: seq<string>, i: nat, l: string)
    requires i <= |ls|
  {
    exists m :: 0 <= m < i && ls[m] == l
  }

  /** Label i is the k-th candidate for its base, all earlier ones being taken. */
  ghost predicate NamedAfter(ls: seq<string>, i: nat, base: string, k: nat)
    requires i < |ls|
  {
    k >= 1 && ls[i] == Candidate(base, k) && forall j :: 1 <= j < k ==> TakenBefore(ls, i, Candidate(base, j))
  }

  lemma StillNamed(ls: seq<string>, l: string, i: nat, base: string, k: nat)
    requires i < |ls| && NamedAfter(ls, i, base, k)
    ensures NamedAfter(ls + [l], i, base, k)
  {
    var more := ls + [l];
    forall j | 1 <= j < k ensures TakenBefore(more, i, Candidate(base, j)) {
      assert TakenBefore(ls, i, Candidate(base, j));
      var m :| 0 <= m < i && ls[m] == Candidate(base, j);
      assert more[m] == ls[m];
    }
  }

  lemma LastNamed(ls: seq<string>, base: string) returns (k: nat)
    ensures NamedAfter(ls + [Pick(base, set l | l in ls)], |ls|, base, k)
  {
    var used := set l | l in ls;
    k := PickIsFree(base, used);
    var more := ls + [Pick(base, used)];
    forall j | 1 <= j < k ensures TakenBefore(more, |ls|, Candidate(base, j)) {
      assert Candidate(base, j) in ls;
      var m :| 0 <= m < |ls| && ls[m] == Candidate(base, j);
      assert more[m] == ls[m];
    }
  }

  lemma {:induction false} LabelFollows(lower: char -> char, devices: seq<Device>, i: nat) returns (k: nat)
    requires i < |devices|
    ensures NamedAfter(LabelsOf(lower, devices), i, BaseLabel(lower, devices[i].name), k)
    decreases |devices|
  {
    var n := |devices| - 1;
    var before, base := LabelsOf(lower, devices[..n]), BaseLabel(lower, devices[n].name);
    assert LabelsOf(lower, devices) == before + [Pick(base, set l | l in before)];
    if i < n {
      k := LabelFollows(lower, devices[..n], i);
      StillNamed(before, Pick(base, set l | l in before), i, BaseLabel(lower, devices[i].name), k);
    } else {
      k := LastNamed(before, base);
    }
  }

  function NameOf(nodes: seq<Node>, statics: seq<StaticPeer>, i: nat): string
    requires i < |nodes| + |statics|
  {
    if i < |nodes| then nodes[i].name else statics[i - |nodes|].name
  }

  /**
   * A device is called after its own name: nas is nas.kai unless an earlier device
   * already is, and each further suffix is used only if the ones before are taken.
   */
  lemma HostFollowsName(lower: char -> char, nodes: seq<Node>, statics: seq<StaticPeer>, i: nat) returns (k: nat, labels: seq<string>)
    requires i < |nodes| + |statics|
    ensures |labels| == |nodes| + |statics| && NamedAfter(labels, i, BaseLabel(lower, NameOf(nodes, statics, i)), k)
    ensures forall j :: 0 <= j < |labels| ==> HostsOf(lower, nodes, statics)[j].name == labels[j] + SUFFIX
  {
    labels := LabelsOf(lower, DevicesOf(nodes, statics));
    k := LabelFollows(lower, DevicesOf(nodes, statics), i);
  }

  /** The suffix loop of buildHosts: it ends because every round uses up a taken label. */
  method PickLabel(base: string, used: set<string>) returns (name: string)
    ensures name == Pick(base, used)
  {
    name := base;
    var i := 2;
    ghost var rest := used;
    while name in used
      invariant i >= 2 && name == Candidate(base, i - 1)
      invariant Untried(base, i - 1, used, rest)
      invariant Pick(base, used) == Search(base, i - 1, rest)
      decreases |rest|
    {
      UntriedStep(base, i - 1, used, rest);
      rest := rest - {name};
      name := base + "-" + Dec(i);
      i := i + 1;
    }
  }

  lemma LabelsSnoc(lower: char -> char, devices: seq<Device>, i: nat)
    requires i < |devices|
    ensures var before := LabelsOf(lower, devices[..i]);
      LabelsOf(lower, devices[..i + 1]) == before + [Pick(BaseLabel(lower, devices[i].name), set l | l in before)]
  {
    assert devices[..i + 1][..i] == devices[..i];
  }

  method NextLabel(lower: char -> char, name: string, used: set<string>) returns (chosen: string)
    ensures chosen == Pick(BaseLabel(lower, name), used)
  {
    var slug := Slug(lower, name);
    var base := if slug != "" then slug else "device";
    chosen := PickLabel(base, used);
  }

  method NameDevices(lower: char -> char, devices: seq<Device>) returns (names: seq<string>)
    ensures names == LabelsOf(lower, devices)
  {
    var used: set<string> := {};
    names := [];
    for i := 0 to |devices|
      invariant names == LabelsOf(lower, devices[..i])
      invariant used == set l | l in names
    {
      LabelsSnoc(lower, devices, i);
      var chosen := NextLabel(lower, devices[i].name, used);
      used := used + {chosen};
      names := names + [chosen];
    }
    assert devices[..|devices|] == devices;
  }

  method BuildHosts(lower: char -> char, nodes: seq<Node>, statics: seq<StaticPeer>) returns (out: seq<HostEntry>)
    ensures out == HostsOf(lower, nodes, statics)
  {
    var devices := DevicesOf(nodes, statics);
    var names := NameDevices(lower, devices);
    out := [];
    for i := 0 to |devices|
      invariant |out| == i && forall j :: 0 <= j < i ==> out[j] == HostEntry(names[j] + SUFFIX, devices[j].ip)
    {
      out := out + [HostEntry(names[i] + SUFFIX, devices[i].ip)];
    }
  }
}
