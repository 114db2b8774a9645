/**
 Sessions point to parent sessions. Two fixpoints are computed over these links in place, each by
 sweeping them for at most as many rounds as there are links: routes are handed down from parents
 to children, and a set of sessions is closed under "my parent is in the set". Links may dangle
 and may form cycles.
 */
module SessionForest {
  import opened Wrappers
  import opened Basics

  const LEGACY_GLOBAL := "legacy-global"

  type Parents = map<string, string>

  type Routes = map<string, string>

  // ---- nearest routed ancestor ---------------------------------------------------------

  ghost function Ancestor(parents: Parents, id: string, k: nat): Option<string>
    decreases k
  {
    if k == 0 then Some(id)
    else if id in parents then Ancestor(parents, parents[id], k - 1)
    else None
  }

  /** The `k`-th ancestor of `id` is routed and no nearer one is. */
  ghost predicate FirstRouted(parents: Parents, direct: Routes, id: string, k: nat) {
    && Ancestor(parents, id, k).Some? && Ancestor(parents, id, k).value in direct
    && forall j: nat :: j < k ==> Ancestor(parents, id, j).Some? && Ancestor(parents, id, j).value !in direct
  }

  ghost function RouteAt(parents: Parents, direct: Routes, id: string, k: nat): string
    requires FirstRouted(parents, direct, id, k)
  {
    direct[Ancestor(parents, id, k).value]
  }

  ghost predicate Inherits(parents: Parents, direct: Routes, id: string, route: string) {
    exists k: nat :: FirstRouted(parents, direct, id, k) && RouteAt(parents, direct, id, k) == route
  }

  /** Where `id` belongs: its own route, else that of its nearest routed ancestor, else legacy-global. */
  ghost function NearestRoute(parents: Parents, direct: Routes, id: string): string {
    if k: nat :| FirstRouted(parents, direct, id, k) then RouteAt(parents, direct, id, k) else LEGACY_GLOBAL
  }

  lemma InheritsOne(parents: Parents, direct: Routes, id: string, a: string, b: string)
    requires Inherits(parents, direct, id, a) && Inherits(parents, direct, id, b)
    ensures a == b
  {
    var j: nat :| FirstRouted(parents, direct, id, j) && RouteAt(parents, direct, id, j) == a;
    var k: nat :| FirstRouted(parents, direct, id, k) && RouteAt(parents, direct, id, k) == b;
    assert j == k;
  }

  lemma DirectInherits(parents: Parents, direct: Routes, id: string)
    requires id in direct
    ensures Inherits(parents, direct, id, direct[id])
  {
    assert FirstRouted(parents, direct, id, 0);
  }

  lemma ChildInherits(parents: Parents, direct: Routes, id: string, route: string)
    requires id in parents && id !in direct && Inherits(parents, direct, parents[id], route)
    ensures Inherits(parents, direct, id, route)
  {
    var k: nat :| FirstRouted(parents, direct, parents[id], k) && RouteAt(parents, direct, parents[id], k) == route;
    forall j: nat | j < k + 1
      ensures Ancestor(parents, id, j).Some? && Ancestor(parents, id, j).value !in direct
    {
      if j > 0 {
        assert Ancestor(parents, id, j) == Ancestor(parents, parents[id], j - 1);
      }
    }
    assert FirstRouted(parents, direct, id, k + 1);
  }

  /** No parent is routed while its child is not. */
  ghost predicate Settled(parents: Parents, routes: Routes) {
    forall child :: child in parents && parents[child] in routes ==> child in routes
  }

  lemma {:induction false} SettledReaches(parents: Parents, direct: Routes, routes: Routes, id: string, k: nat)
    requires Settled(parents, routes) && direct.Keys <= routes.Keys && FirstRouted(parents, direct, id, k)
    ensures id in routes
    decreases k
  {
    if k > 0 {
      assert Ancestor(parents, id, 1).Some?;
      forall j: nat | j < k - 1
        ensures Ancestor(parents, parents[id], j).Some? && Ancestor(parents, parents[id], j).value !in direct
      {
        assert Ancestor(parents, parents[id], j) == Ancestor(parents, id, j + 1);
      }
      SettledReaches(parents, direct, routes, parents[id], k - 1);
    }
  }

  type Claims = iset<(string, string)>

  /** All sessions with the routes they inherit. */
  ghost function Inheritance(parents: Parents, direct: Routes): Claims {
    iset id: string, route: string | Inherits(parents, direct, id, route) :: (id, route)
  }

  /** A child without a route of its own may claim whatever its parent may. */
  ghost predicate Heritable(parents: Parents, direct: Routes, claims: Claims) {
    forall child, route :: child in parents && child !in direct && (parents[child], route) in claims ==> (child, route) in claims
  }

  ghost predicate Sound(claims: Claims, routes: Routes) {
    forall id :: id in routes ==> (id, routes[id]) in claims
  }

  lemma InheritanceIsHeritable(parents: Parents, direct: Routes)
    ensures Heritable(parents, direct, Inheritance(parents, direct)) && Sound(Inheritance(parents, direct), direct)
  {
    forall child, route | child in parents && child !in direct && Inherits(parents, direct, parents[child], route)
      ensures Inherits(parents, direct, child, route)
    {
      ChildInherits(parents, direct, child, route);
    }
    forall id | id in direct
      ensures Inherits(parents, direct, id, direct[id])
    {
      DirectInherits(parents, direct, id);
    }
  }

  lemma KeyAdded(routes: Routes, id: string, route: string, small: set<string>, more: set<string>)
    requires small <= routes.Keys <= small + more && id !in routes && id in more
    ensures small < routes[id := route].Keys <= small + more
  {
  }

  lemma Grew<T>(before: set<T>, after: set<T>, base: set<T>)
    requires before < after && base <= before
    ensures |after - base| > |before - base|
  {
    var x :| x in after && x !in before;
    SubsetIsNoLarger(before - base, after - base - {x});
  }

  /** One sweep over the links, in any order, updating the routes as it goes. */
  method Sweep(parents: Parents, direct: Routes, before: Routes, ghost claims: Claims) returns (routes: Routes, changed: bool)
    requires Heritable(parents, direct, claims) && Sound(claims, before) && direct.Keys <= before.Keys
    ensures Sound(claims, routes) && before.Keys <= routes.Keys <= before.Keys + parents.Keys
    ensures if changed then before.Keys < routes.Keys else routes == before && Settled(parents, routes)
  {
    routes, changed := before, false;
    var rest := parents.Keys;
    while rest != {}
      invariant rest <= parents.Keys
      invariant Sound(claims, routes) && before.Keys <= routes.Keys <= before.Keys + parents.Keys
      invariant changed ==> before.Keys < routes.Keys
      invariant !changed ==> routes == before
      invariant !changed ==> forall child :: child in parents && child !in rest && parents[child] in before ==> child in before
      decreases rest
    {
      var child :| child in rest;
      rest := rest - {child};
      if child !in routes && parents[child] in routes {
        KeyAdded(routes, child, routes[parents[child]], before.Keys, parents.Keys);
        routes := routes[child := routes[parents[child]]];
        changed := true;
      }
    }
  }

  /** When every round changed something, all children are routed. */
  lemma RoundsExhausted(parents: Parents, direct: Routes, routes: Routes, rounds: nat)
    requires direct.Keys <= routes.Keys <= direct.Keys + parents.Keys
    requires |parents| <= rounds <= |routes.Keys - direct.Keys|
    ensures Settled(parents, routes)
  {
    assert |parents| == |parents.Keys|;
    SubsetOfSameSize(routes.Keys - direct.Keys, parents.Keys);
  }

  /** The routes are exactly the inherited ones. */
  ghost predicate Propagated(parents: Parents, direct: Routes, routes: Routes) {
    && routes.Keys <= direct.Keys + parents.Keys
    && forall id, route :: Inherits(parents, direct, id, route) <==> (id in routes && routes[id] == route)
  }

  lemma SettledInherits(parents: Parents, direct: Routes, routes: Routes)
    requires Sound(Inheritance(parents, direct), routes) && Settled(parents, routes)
    requires direct.Keys <= routes.Keys <= direct.Keys + parents.Keys
    ensures Propagated(parents, direct, routes)
  {
    forall id, route | Inherits(parents, direct, id, route)
      ensures id in routes && routes[id] == route
    {
      var k: nat :| FirstRouted(parents, direct, id, k) && RouteAt(parents, direct, id, k) == route;
      SettledReaches(parents, direct, routes, id, k);
      InheritsOne(parents, direct, id, route, routes[id]);
    }
  }

  method SweepUntilSettled(parents: Parents, direct: Routes, rounds: nat, ghost claims: Claims) returns (routes: Routes)
    requires |parents| <= rounds && Heritable(parents, direct, claims) && Sound(claims, direct)
    ensures Sound(claims, routes) && Settled(parents, routes)
    ensures direct.Keys <= routes.Keys <= direct.Keys + parents.Keys
  {
    routes := direct;
    var round := 0;
    while round < rounds
      invariant round <= rounds && round <= |routes.Keys - direct.Keys|
      invariant Sound(claims, routes) && direct.Keys <= routes.Keys <= direct.Keys + parents.Keys
    {
      var swept, changed := Sweep(parents, direct, routes, claims);
      if !changed {
        return;
      }
      Grew(routes.Keys, swept.Keys, direct.Keys);
      routes := swept;
      round := round + 1;
    }
    RoundsExhausted(parents, direct, routes, rounds);
  }

  /** Hands routes down until nothing changes, or for `rounds` sweeps, whatever order each sweep takes. */
  method Propagate(parents: Parents, direct: Routes, rounds: nat) returns (routes: Routes)
    requires |parents| <= rounds
    ensures Propagated(parents, direct, routes)
  {
    InheritanceIsHeritable(parents, direct);
    routes := SweepUntilSettled(parents, direct, rounds, Inheritance(parents, direct));
    SettledInherits(parents, direct, routes);
  }

  /** A session with no routed ancestor, in a cycle of parents for one, belongs to legacy-global. */
  lemma NearestRouteIs(parents: Parents, direct: Routes, id: string, route: string)
    ensures Inherits(parents, direct, id, route) ==> NearestRoute(parents, direct, id) == route
    ensures (forall r :: !Inherits(parents, direct, id, r)) ==> NearestRoute(parents, direct, id) == LEGACY_GLOBAL
  {
    if k: nat :| FirstRouted(parents, direct, id, k) {
      assert Inherits(parents, direct, id, RouteAt(parents, direct, id, k));
      assert Inherits(parents, direct, id, NearestRoute(parents, direct, id));
      if Inherits(parents, direct, id, route) {
        InheritsOne(parents, direct, id, route, NearestRoute(parents, direct, id));
      }
    }
  }

  /** A child without a route of its own goes wherever its parent goes. */
  lemma ChildGoesWithParent(parents: Parents, direct: Routes, id: string)
    requires id in parents && id !in direct
    ensures NearestRoute(parents, direct, id) == NearestRoute(parents, direct, parents[id])
  {
    if k: nat :| FirstRouted(parents, direct, parents[id], k) {
      var route := RouteAt(parents, direct, parents[id], k);
      ChildInherits(parents, direct, id, route);
      NearestRouteIs(parents, direct, id, route);
      NearestRouteIs(parents, direct, parents[id], route);
    } else if k: nat :| FirstRouted(parents, direct, id, k) {
      assert k > 0;
      forall j: nat | j < k - 1
        ensures Ancestor(parents, parents[id], j).Some? && Ancestor(parents, parents[id], j).value !in direct
      {
        assert Ancestor(parents, parents[id], j) == Ancestor(parents, id, j + 1);
      }
      assert FirstRouted(parents, direct, parents[id], k - 1);
    }
  }

  // ---- the closure under parents -----------------------------------------------------------

  datatype Link = Link(id: string, parent: Option<string>)

  ghost function Ids(links: seq<Link>): set<string> {
    set l | l in links :: l.id
  }

  /** Follows `l` when its parent is in the set. */
  predicate Follows(s: set<string>, l: Link) {
    l.parent.Some? && l.parent.value in s ==> l.id in s
  }

  predicate Closed(links: seq<Link>, s: set<string>) {
    forall i :: 0 <= i < |links| ==> Follows(s, links[i])
  }

  /** Every closed set with the seeds contains `s`. */
  ghost predicate Within(links: seq<Link>, seeds: set<string>, s: set<string>) {
    forall t :: seeds <= t && Closed(links, t) ==> s <= t
  }

  lemma {:induction false} FewIds(links: seq<Link>)
    ensures |Ids(links)| <= |links|
  {
    if links != [] {
      var n := |links| - 1;
      FewIds(links[..n]);
      assert links == links[..n] + [links[n]];
      assert Ids(links) == Ids(links[..n]) + {links[n].id};
    }
  }

  method SweepLinks(links: seq<Link>, seeds: set<string>, before: set<string>) returns (s: set<string>)
    requires seeds <= before && Within(links, seeds, before)
    ensures before <= s <= before + Ids(links) && Within(links, seeds, s)
    ensures s == before ==> Closed(links, s)
  {
    s := before;
    for i := 0 to |links|
      invariant before <= s <= before + Ids(links) && Within(links, seeds, s)
      invariant s == before ==> forall j :: 0 <= j < i ==> Follows(s, links[j])
    {
      var l := links[i];
      if l.parent.Some? && l.parent.value in s {
        forall t | seeds <= t && Closed(links, t)
          ensures s + {l.id} <= t
        {
          assert Follows(t, links[i]);
        }
        s := s + {l.id};
      }
    }
  }

  /** Adds the descendants of the seeds: the result is the least closed set that has them. */
  method CloseUnderParents(links: seq<Link>, seeds: set<string>) returns (s: set<string>)
    ensures seeds <= s <= seeds + Ids(links) && Closed(links, s) && Within(links, seeds, s)
  {
    s := seeds;
    var round := 0;
    while round < |links|
      invariant round <= |links| && round <= |s - seeds|
      invariant seeds <= s <= seeds + Ids(links) && Within(links, seeds, s)
    {
      var swept := SweepLinks(links, seeds, s);
      if |swept| == |s| {
        SubsetOfSameSize(s, swept);
        return;
      }
      Grew(s, swept, seeds);
      s := swept;
      round := round + 1;
    }
    FewIds(links);
    SubsetOfSameSize(s - seeds, Ids(links));
    assert forall i :: 0 <= i < |links| ==> links[i].id in Ids(links);
  }
}
