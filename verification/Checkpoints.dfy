/**
 Optimistic reads of a database that other processes write at any time. A generation stamp is taken
 before and after; only when both agree is the result kept. Between any two steps the others may
 commit new versions and write checkpoints of their own.
 */
module Checkpoints {
  import opened Wrappers

  const TRIES := 3

  const PROJECT_ID_LENGTH := 40

  predicate ValidProjectId(id: string) {
    |id| == PROJECT_ID_LENGTH && forall i :: 0 <= i < |id| ==> '0' <= id[i] <= '9' || 'a' <= id[i] <= 'f'
  }

  predicate ValidAuthority(id: string) {
    id == "global" || ValidProjectId(id)
  }

  /** The checkpoint file: the root sessions of a project in the database that had this generation. */
  datatype Checkpoint = Checkpoint(authority: string, generation: string, roots: nat)

  /** `versions` are the committed states in order, `stamp` is what a reader sees of each. */
  class World<Db(!new)> {
    const versions: nat -> Db
    const stamp: nat -> string
    const roots: (Db, string) -> nat
    const projects: (Db, string) -> nat
    var version: nat
    var checkpoint: Option<Checkpoint>
    /** How often others wrote or deleted the checkpoint. */
    ghost var touched: nat

    constructor (versions: nat -> Db, stamp: nat -> string, roots: (Db, string) -> nat, projects: (Db, string) -> nat)
      ensures this.versions == versions && this.stamp == stamp && this.roots == roots && this.projects == projects
      ensures version == 0 && checkpoint == None
    {
      this.versions, this.stamp, this.roots, this.projects := versions, stamp, roots, projects;
      version, checkpoint, touched := 0, None, 0;
    }

    /** A stamp is not seen again once the database has been something else. */
    ghost predicate StampsNeverRepeat() {
      forall i: nat, j: nat, k: nat :: i <= k <= j && stamp(i) == stamp(j) ==> versions(k) == versions(i)
    }

    ghost predicate CountsVersion(c: Checkpoint, v: nat) {
      stamp(v) == c.generation && roots(versions(v), c.authority) == c.roots
    }

    /** The checkpoint pairs a generation with the count of a state that had it. */
    ghost predicate Honest(c: Checkpoint)
      reads this
    {
      exists v: nat :: v <= version && CountsVersion(c, v)
    }

    ghost predicate Valid()
      reads this
    {
      StampsNeverRepeat() && (checkpoint.Some? ==> Honest(checkpoint.value))
    }

    /** Anything the others can do: commit any number of versions, write an honest checkpoint, delete the checkpoint. */
    method Interfere()
      requires Valid()
      modifies this
      ensures Valid() && version >= old(version)
      ensures touched >= old(touched) && (touched == old(touched) ==> checkpoint == old(checkpoint))
    {
      var later: nat :| later >= version;
      version := later;
      if checkpoint.Some? {
        ghost var v: nat :| v <= old(version) && CountsVersion(checkpoint.value, v);
        assert v <= version;
      }
      if * {
        var v: nat :| v <= version;
        assert ValidAuthority("global");
        var authority: string :| ValidAuthority(authority);
        checkpoint, touched := Some(Checkpoint(authority, stamp(v), roots(versions(v), authority))), touched + 1;
        assert CountsVersion(checkpoint.value, v);
      } else if * {
        checkpoint, touched := None, touched + 1;
      }
    }

    /** The checkpoint was written for a version that was there while the call ran. */
    ghost predicate Counted(from: nat, authority: string, counted: nat)
      reads this
    {
      exists v: nat :: from <= v <= version && projects(versions(v), authority) == 1
        && roots(versions(v), authority) == counted && checkpoint == Some(Checkpoint(authority, stamp(v), counted))
    }

    /** Some version that was there while the call ran does not have exactly one such project. */
    ghost predicate NotOneProject(from: nat, authority: string)
      reads this
    {
      exists v: nat :: from <= v <= version && projects(versions(v), authority) != 1
    }

    /** Two queries outside a transaction, bracketed by stamps; it gives up only after a commit in every try. */
    method RefreshCheckpoint(authority: string) returns (r: Result<nat>)
      requires Valid()
      modifies this
      ensures Valid() && version >= old(version)
      ensures r.Ok? ==> ValidAuthority(authority) && Counted(old(version), authority, r.value)
      ensures r.Err? ==> !ValidAuthority(authority) || NotOneProject(old(version), authority) || version >= old(version) + TRIES
    {
      if !ValidAuthority(authority) {
        return Err;
      }
      for i := 0 to TRIES
        invariant Valid() && version >= old(version) + i
      {
        Interfere();
        var before := stamp(version);
        ghost var v := version;
        Interfere();
        var found := projects(versions(version), authority);
        ghost var w := version;
        if found != 1 {
          return Err;
        }
        Interfere();
        var counted := roots(versions(version), authority);
        ghost var x := version;
        Interfere();
        var after := stamp(version);
        if before == after {
          ghost var y := version;
          assert versions(w) == versions(v) && versions(x) == versions(v) && versions(y) == versions(v);
          Interfere();
          checkpoint := Some(Checkpoint(authority, after, counted));
          assert CountsVersion(checkpoint.value, y);
          return Ok(counted);
        }
      }
      return Err;
    }

    /** The count is that of a version which was there during the call. */
    ghost predicate CountedNow(from: nat, authority: string, counted: nat)
      reads this
    {
      exists v: nat :: from <= v <= version && roots(versions(v), authority) == counted
    }

    /** A hit: the checkpoint bears the present generation, which has not moved after it was read; undisturbed, it is one if it does. */
    method CheckpointHit(authority: string) returns (r: Option<nat>)
      requires Valid()
      modifies this
      ensures Valid() && version >= old(version)
      ensures r.Some? ==> CountedNow(old(version), authority, r.value)
      ensures version == old(version) && touched == old(touched) ==>
        (r.Some? <==> old(checkpoint).Some? && old(checkpoint).value.authority == authority && old(checkpoint).value.generation == stamp(version))
    {
      Interfere();
      var generation := stamp(version);
      ghost var v := version;
      Interfere();
      var stored := checkpoint;
      if stored.None? || stored.value.authority != authority || stored.value.generation != generation {
        return None;
      }
      ghost var w: nat :| w <= version && CountsVersion(stored.value, w);
      assert versions(w) == versions(v) by {
        SameStampSameVersion(v, w);
      }
      Interfere();
      if stamp(version) != generation {
        return None;
      }
      return Some(stored.value.roots);
    }

    lemma SameStampSameVersion(v: nat, w: nat)
      requires StampsNeverRepeat() && stamp(v) == stamp(w)
      ensures versions(v) == versions(w)
    {
      if v <= w {
        assert versions(w) == versions(v);
      }
    }

    /** What was read from the version that has this generation, and from no other. */
    ghost predicate ReadFrom<T(!new)>(from: nat, read: Db -> Result<T>, value: T, generation: string)
      reads this
    {
      && (exists v: nat :: from <= v <= version && stamp(v) == generation)
      && (forall v: nat :: stamp(v) == generation ==> read(versions(v)) == Ok(value))
    }

    ghost predicate Unreadable<T(!new)>(from: nat, read: Db -> Result<T>)
      reads this
    {
      exists v: nat :: from <= v <= version && read(versions(v)).Err?
    }

    /** A whole read in one transaction, kept only when no commit came between the stamps; a few tries are made. */
    method PrepareSource<T(!new)>(read: Db -> Result<T>) returns (r: Result<(T, string)>)
      requires Valid()
      modifies this
      ensures Valid() && version >= old(version)
      ensures r.Ok? ==> ReadFrom(old(version), read, r.value.0, r.value.1)
      ensures r.Err? ==> Unreadable(old(version), read) || version >= old(version) + TRIES
    {
      for i := 0 to TRIES
        invariant Valid() && version >= old(version) + i
      {
        Interfere();
        var before := stamp(version);
        ghost var v := version;
        Interfere();
        var snapshot := read(versions(version));
        ghost var w := version;
        if snapshot.Err? {
          return Err;
        }
        Interfere();
        var after := stamp(version);
        if before == after {
          assert versions(w) == versions(v) by {
            assert stamp(version) == stamp(v);
          }
          forall u: nat | stamp(u) == before
            ensures read(versions(u)) == snapshot
          {
            SameStampSameVersion(u, v);
          }
          return Ok((snapshot.value, before));
        }
      }
      return Err;
    }
  }
}
