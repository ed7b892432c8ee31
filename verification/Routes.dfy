/** Canonical subnet announcements (internal/coordinator/routes.go). */
module Routes {
  import opened Net
  import opened Options
  import opened Sorting

  /** A route the overlay can carry: an IPv4 subnet, not the default route, clear of the overlay. */
  predicate Acceptable(overlay: Prefix, r: Prefix) {
    r.addr < INVALID && r.bits > 0 && !Overlaps(r, overlay)
  }

  /** Acceptable and written with its network address. */
  predicate GoodRoute(overlay: Prefix, r: Prefix) { Acceptable(overlay, r) && Masked(r) == r }

  lemma MaskedStaysGood(overlay: Prefix, r: Prefix)
    requires Acceptable(overlay, r)
    ensures GoodRoute(overlay, Masked(r))
  {
    var n := 32 - r.bits;
    HighOfClear(r.addr, n);
    if overlay.bits < r.bits {
      HighAdd(r.addr, n, r.bits - overlay.bits);
      HighAdd(Clear(r.addr, n), n, r.bits - overlay.bits);
    }
  }

  /** No overlay address lies in a good route. */
  lemma GoodRouteAvoidsOverlay(overlay: Prefix, r: Prefix, a: Addr)
    requires Acceptable(overlay, r) && Contains(overlay, a)
    ensures !Contains(r, a)
  {
    OverlapsIff(r, overlay);
  }

  /** Parsed announcements (None: unparsable or not IPv4), deduplicated in order. */
  function Canonical(overlay: Prefix, routes: seq<Option<Prefix>>): Option<seq<Prefix>> {
    if routes == [] then Some([])
    else
      var rest := Canonical(overlay, routes[..|routes| - 1]);
      var r := routes[|routes| - 1];
      if rest.None? || r.None? || !Acceptable(overlay, r.value) then None
      else if Masked(r.value) in rest.value then rest
      else Some(rest.value + [Masked(r.value)])
  }

  predicate TextLe(p: Prefix, q: Prefix) { LexLe(CidrText(p), CidrText(q)) }

  function NormalizeOf(overlay: Prefix, routes: seq<Option<Prefix>>): Option<seq<Prefix>> {
    var c := Canonical(overlay, routes);
    if c.None? then None else Some(Sort(c.value, TextLe))
  }

  lemma {:induction false} CanonicalMembers(overlay: Prefix, routes: seq<Option<Prefix>>)
    ensures Canonical(overlay, routes).Some? <==>
      forall i :: 0 <= i < |routes| ==> routes[i].Some? && Acceptable(overlay, routes[i].value)
    ensures var c := Canonical(overlay, routes);
      c.Some? ==> forall p :: p in c.value <==> exists i :: 0 <= i < |routes| && routes[i].Some? && p == Masked(routes[i].value)
  {
    if routes != [] {
      var init, r := routes[..|routes| - 1], routes[|routes| - 1];
      CanonicalMembers(overlay, init);
      assert forall i :: 0 <= i < |init| ==> init[i] == routes[i];
      var c, d := Canonical(overlay, routes), Canonical(overlay, init);
      if c.Some? {
        forall p ensures p in c.value <==> exists i :: 0 <= i < |routes| && routes[i].Some? && p == Masked(routes[i].value) {
          assert p in c.value <==> p in d.value || p == Masked(r.value);
          if p in d.value {
            var i :| 0 <= i < |init| && init[i].Some? && p == Masked(init[i].value);
            assert routes[i] == init[i];
          }
          if p == Masked(r.value) {
            assert routes[|routes| - 1] == r;
          }
        }
      }
    }
  }

  lemma TextOrder()
    ensures TotalPreorder(TextLe)
  {
    forall p, q ensures TextLe(p, q) || TextLe(q, p) {
      LexTotal(CidrText(p), CidrText(q));
    }
    forall p, q, r | TextLe(p, q) && TextLe(q, r) ensures TextLe(p, r) {
      LexTransitive(CidrText(p), CidrText(q), CidrText(r));
    }
  }

  /** Normalizing fails iff some announcement is unacceptable; else it yields the masked routes, each good, in text order. */
  lemma NormalizeExact(overlay: Prefix, routes: seq<Option<Prefix>>)
    ensures NormalizeOf(overlay, routes).Some? <==>
      forall i :: 0 <= i < |routes| ==> routes[i].Some? && Acceptable(overlay, routes[i].value)
    ensures var n := NormalizeOf(overlay, routes);
      n.Some? ==>
        && (forall p :: p in n.value <==> exists i :: 0 <= i < |routes| && routes[i].Some? && p == Masked(routes[i].value))
        && (forall p :: p in n.value ==> GoodRoute(overlay, p))
        && SortedBy(n.value, TextLe)
  {
    TextOrder();
    CanonicalMembers(overlay, routes);
    var c := Canonical(overlay, routes);
    if c.Some? {
      SortKeepsMembers(c.value, TextLe);
      SortSorts(c.value, TextLe);
      forall p | p in c.value ensures GoodRoute(overlay, p) {
        var i :| 0 <= i < |routes| && routes[i].Some? && p == Masked(routes[i].value);
        MaskedStaysGood(overlay, routes[i].value);
      }
    }
  }

  method NormalizeRoutes(overlay: Prefix, routes: seq<Option<Prefix>>) returns (r: Option<seq<Prefix>>)
    ensures r == NormalizeOf(overlay, routes)
  {
    var seen: set<Prefix> := {};
    var out: seq<Prefix> := [];
    for i := 0 to |routes|
      invariant Canonical(overlay, routes[..i]) == Some(out)
      invariant forall p :: p in seen <==> p in out
    {
      assert routes[..i + 1][..i] == routes[..i];
      if routes[i].None? || !Acceptable(overlay, routes[i].value) {
        CanonicalMembers(overlay, routes);
        return None;
      }
      var c := Masked(routes[i].value);
      if c !in seen {
        seen := seen + {c};
        out := out + [c];
      }
    }
    assert routes[..|routes|] == routes;
    r := Some(Sort(out, TextLe));
  }
}
