/**
 Sessions whose names OpenCode could not have made, with everything below them. The repair of a
 private store and the catch-up migration compute the set from slightly different seeds.
 */
module Quarantine {
  import opened Wrappers
  import opened SessionForest

  predicate WellNamed(id: string) {
    "ses_" <= id
  }

  predicate BadParent(l: Link) {
    l.parent.Some? && !WellNamed(l.parent.value)
  }

  /** What the repair starts from: bad names and bad parents. */
  function RepairSeeds(links: seq<Link>): set<string> {
    set l | l in links && (!WellNamed(l.id) || BadParent(l)) :: l.id
  }

  /** What the catch-up starts from: it sees a bad name only on a session that was routed directly. */
  function CatchUpSeeds(links: seq<Link>, direct: Routes): set<string> {
    (set id | id in direct && !WellNamed(id)) + set l | l in links && BadParent(l) :: l.id
  }

  ghost predicate Least(links: seq<Link>, seeds: set<string>, s: set<string>) {
    seeds <= s && Closed(links, s) && Within(links, seeds, s)
  }

  lemma LeastIsUnique(links: seq<Link>, seeds: set<string>, s: set<string>, t: set<string>)
    requires Least(links, seeds, s) && Least(links, seeds, t)
    ensures s == t
  {
  }

  method MalformedSessionClosure(links: seq<Link>) returns (malformed: set<string>)
    ensures Least(links, RepairSeeds(links), malformed) && malformed <= Ids(links)
  {
    malformed := {};
    for i := 0 to |links|
      invariant malformed == RepairSeeds(links[..i])
    {
      assert links[..i + 1] == links[..i] + [links[i]];
      if !WellNamed(links[i].id) || BadParent(links[i]) {
        malformed := malformed + {links[i].id};
      }
    }
    assert links[..|links|] == links;
    malformed := CloseUnderParents(links, malformed);
  }

  method QuarantineSessions(links: seq<Link>, direct: Routes) returns (malformed: set<string>)
    requires direct.Keys <= Ids(links)
    ensures Least(links, CatchUpSeeds(links, direct), malformed) && malformed <= Ids(links)
  {
    ghost var named := set id | id in direct && !WellNamed(id);
    malformed := set id | id in direct && !WellNamed(id);
    for i := 0 to |links|
      invariant malformed == named + set l | l in links[..i] && BadParent(l) :: l.id
    {
      assert links[..i + 1] == links[..i] + [links[i]];
      if BadParent(links[i]) {
        malformed := malformed + {links[i].id};
      }
    }
    assert links[..|links|] == links;
    malformed := CloseUnderParents(links, malformed);
  }

  // ---- what the sets contain ------------------------------------------------------------------

  /** The parents of the links, each session having one row. */
  ghost predicate ParentsOf(links: seq<Link>, parents: Parents) {
    && parents.Keys <= Ids(links)
    && forall l :: l in links ==> if l.parent.Some? then l.id in parents && parents[l.id] == l.parent.value else l.id !in parents
  }

  ghost predicate Below(parents: Parents, seeds: set<string>, id: string, k: nat) {
    Ancestor(parents, id, k).Some? && Ancestor(parents, id, k).value in seeds
  }

  lemma {:induction false} BelowIsIn(links: seq<Link>, parents: Parents, seeds: set<string>, s: set<string>, id: string, k: nat)
    requires ParentsOf(links, parents) && Least(links, seeds, s) && Below(parents, seeds, id, k)
    ensures id in s
    decreases k
  {
    if k > 0 {
      BelowIsIn(links, parents, seeds, s, parents[id], k - 1);
      var l :| l in links && l.id == id;
      assert Follows(s, l);
    }
  }

  /** The least closed set holds exactly the seeds and the sessions below a seed. */
  lemma LeastMeaning(links: seq<Link>, parents: Parents, seeds: set<string>, s: set<string>, id: string)
    requires ParentsOf(links, parents) && Least(links, seeds, s) && seeds <= Ids(links)
    ensures id in s <==> exists k: nat :: Below(parents, seeds, id, k)
  {
    if k: nat :| Below(parents, seeds, id, k) {
      BelowIsIn(links, parents, seeds, s, id, k);
    }
    var t := set i | i in Ids(links) && exists k: nat :: Below(parents, seeds, i, k);
    forall i | i in seeds
      ensures i in t
    {
      assert Below(parents, seeds, i, 0);
    }
    forall l | l in links && l.parent.Some? && l.parent.value in t
      ensures l.id in t
    {
      var k: nat :| Below(parents, seeds, l.parent.value, k);
      assert Below(parents, seeds, l.id, k + 1);
    }
    assert Closed(links, t);
  }

  /** An ancestor, counting a parent that has no row, is badly named. */
  ghost predicate BadAncestor(parents: Parents, id: string, k: nat) {
    Ancestor(parents, id, k).Some? && !WellNamed(Ancestor(parents, id, k).value)
  }

  lemma {:induction false} AncestorHasRow(links: seq<Link>, parents: Parents, id: string, k: nat)
    requires ParentsOf(links, parents) && id in Ids(links) && Ancestor(parents, id, k + 1).Some?
    ensures Ancestor(parents, id, k).Some? && Ancestor(parents, id, k).value in parents
    ensures Ancestor(parents, id, k + 1).value == parents[Ancestor(parents, id, k).value]
    decreases k
  {
    if k > 0 {
      assert parents[id] in parents;
      AncestorHasRow(links, parents, parents[id], k - 1);
    }
  }

  lemma BadSeed(links: seq<Link>, parents: Parents, id: string)
    requires ParentsOf(links, parents) && id in Ids(links)
    ensures id in RepairSeeds(links) <==> !WellNamed(id) || (id in parents && !WellNamed(parents[id]))
    ensures forall direct: Routes :: id in CatchUpSeeds(links, direct) <==>
      (id in direct && !WellNamed(id)) || (id in parents && !WellNamed(parents[id]))
  {
    var l :| l in links && l.id == id;
    assert BadParent(l) <==> id in parents && !WellNamed(parents[id]);
  }

  /** The repair removes a session exactly when it or one of its ancestors is badly named. */
  lemma RepairMeaning(links: seq<Link>, parents: Parents, s: set<string>, id: string)
    requires ParentsOf(links, parents) && Least(links, RepairSeeds(links), s) && id in Ids(links)
    ensures id in s <==> exists k: nat :: BadAncestor(parents, id, k)
  {
    LeastMeaning(links, parents, RepairSeeds(links), s, id);
    if k: nat :| Below(parents, RepairSeeds(links), id, k) {
      SeedBelow(links, parents, map[], id, k);
    }
    if k: nat :| BadAncestor(parents, id, k) {
      BadBelow(links, parents, map[], id, k);
    }
  }

  /** The catch-up quarantines it when an ancestor proper is badly named, or it is itself and was routed directly. */
  lemma CatchUpMeaning(links: seq<Link>, parents: Parents, direct: Routes, s: set<string>, id: string)
    requires ParentsOf(links, parents) && Least(links, CatchUpSeeds(links, direct), s) && id in Ids(links)
    requires direct.Keys <= Ids(links)
    ensures id in s <==> exists k: nat :: BadAncestor(parents, id, k) && (k > 0 || id in direct)
  {
    LeastMeaning(links, parents, CatchUpSeeds(links, direct), s, id);
    if k: nat :| Below(parents, CatchUpSeeds(links, direct), id, k) {
      SeedBelow(links, parents, direct, id, k);
    }
    if k: nat :| BadAncestor(parents, id, k) && (k > 0 || id in direct) {
      BadBelow(links, parents, direct, id, k);
    }
  }

  lemma SeedBelow(links: seq<Link>, parents: Parents, direct: Routes, id: string, k: nat)
    requires ParentsOf(links, parents) && id in Ids(links) && direct.Keys <= Ids(links)
    ensures Below(parents, RepairSeeds(links), id, k) ==> BadAncestor(parents, id, k) || BadAncestor(parents, id, k + 1)
    ensures Below(parents, CatchUpSeeds(links, direct), id, k) ==>
      BadAncestor(parents, id, k + 1) || (BadAncestor(parents, id, k) && (k > 0 || id in direct))
  {
    if Ancestor(parents, id, k).Some? && Ancestor(parents, id, k).value in Ids(links) {
      var a := Ancestor(parents, id, k).value;
      BadSeed(links, parents, a);
      AncestorStep(parents, id, k);
    }
  }

  lemma {:induction false} AncestorStep(parents: Parents, id: string, k: nat)
    requires Ancestor(parents, id, k).Some?
    ensures Ancestor(parents, id, k + 1) ==
      if Ancestor(parents, id, k).value in parents then Some(parents[Ancestor(parents, id, k).value]) else None
    decreases k
  {
    if k > 0 {
      AncestorStep(parents, parents[id], k - 1);
    }
  }

  lemma BadBelow(links: seq<Link>, parents: Parents, direct: Routes, id: string, k: nat)
    requires ParentsOf(links, parents) && id in Ids(links) && BadAncestor(parents, id, k)
    ensures exists j: nat :: Below(parents, RepairSeeds(links), id, j)
    ensures k > 0 || id in direct ==> exists j: nat :: Below(parents, CatchUpSeeds(links, direct), id, j)
  {
    if k == 0 {
      BadSeed(links, parents, id);
      assert Below(parents, RepairSeeds(links), id, 0);
      assert id in direct ==> Below(parents, CatchUpSeeds(links, direct), id, 0);
    } else {
      AncestorHasRow(links, parents, id, k - 1);
      BadSeed(links, parents, Ancestor(parents, id, k - 1).value);
      assert Below(parents, RepairSeeds(links), id, k - 1);
      assert Below(parents, CatchUpSeeds(links, direct), id, k - 1);
    }
  }

  /**
     The two sets are the same exactly when every badly named session without a direct route has a badly
     named ancestor. Otherwise the catch-up takes such a session for any other: it goes with its nearest routed
     ancestor, possibly into the store of a project, or to legacy-global if there is none.
   */
  lemma QuarantinesAgreeIff(links: seq<Link>, parents: Parents, direct: Routes, repair: set<string>, catchUp: set<string>)
    requires ParentsOf(links, parents) && direct.Keys <= Ids(links)
    requires Least(links, RepairSeeds(links), repair) && Least(links, CatchUpSeeds(links, direct), catchUp)
    requires repair <= Ids(links) && catchUp <= Ids(links)
    ensures catchUp <= repair
    ensures catchUp == repair <==>
      forall id :: id in Ids(links) && !WellNamed(id) && id !in direct ==> exists k: nat :: k > 0 && BadAncestor(parents, id, k)
  {
    forall id | id in Ids(links)
      ensures id in repair <==> exists k: nat :: BadAncestor(parents, id, k)
      ensures id in catchUp <==> exists k: nat :: BadAncestor(parents, id, k) && (k > 0 || id in direct)
    {
      RepairMeaning(links, parents, repair, id);
      CatchUpMeaning(links, parents, direct, catchUp, id);
    }
    forall id | id in Ids(links) && !WellNamed(id)
      ensures id in repair
    {
      assert BadAncestor(parents, id, 0);
    }
  }

  lemma QuarantinesMayDiffer()
    ensures var links := [Link("old", None)];
      !Least(links, CatchUpSeeds(links, map[]), {"old"}) && Least(links, RepairSeeds(links), {"old"})
  {
    var links := [Link("old", None)];
    assert links[0] in links && !WellNamed("old");
    assert CatchUpSeeds(links, map[]) == {} && RepairSeeds(links) == {"old"};
    assert Closed(links, {});
  }
}
