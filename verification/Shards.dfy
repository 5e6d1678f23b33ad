/** The clean database split into shards by placement group: changing the number of groups moves
    entries between shards but never changes what a lookup finds. */
module Shards {
  import opened Basics
  import opened Counters

  const POOL_SHIFT: nat := 0x1_0000_0000_0000
  const STRIPE_SHIFT: nat := 0x1_0000_0000_0000_0000

  /** An object id is an inode, whose upper bits are the pool, and a stripe offset in it. */
  type Oid = nat

  function StripeOf(o: Oid): nat { o % STRIPE_SHIFT }

  function PoolOf(o: Oid): nat { o / STRIPE_SHIFT / POOL_SHIFT }

  /** How the objects of a pool are divided into groups. */
  datatype Settings = Settings(count: nat, stripe: nat)
  {
    predicate Ok() { count > 0 && stripe > 0 }

    function Group(o: Oid): nat
      requires Ok()
    {
      StripeOf(o) / stripe % count + 1
    }
  }

  datatype ShardId = ShardId(pool: nat, group: nat)

  /** Group zero holds the objects of pools that have not been divided yet. */
  function ShardOf(settings: map<nat, Settings>, o: Oid): ShardId {
    var pool := PoolOf(o);
    ShardId(pool, if pool in settings && settings[pool].Ok() then settings[pool].Group(o) else 0)
  }

  /** Where new settings of a pool put its objects. */
  function Home(pool: nat, st: Settings, o: Oid): (id: ShardId)
    requires st.Ok()
    ensures id.pool == pool
  {
    ShardId(pool, st.Group(o))
  }

  type Shard = map<Oid, CleanRef>

  function At(shards: map<ShardId, Shard>, id: ShardId, o: Oid): Option<CleanRef> {
    if id in shards && o in shards[id] then Some(shards[id][o]) else None
  }

  /** `clean_db_shard` followed by a search in it. */
  function Lookup(shards: map<ShardId, Shard>, settings: map<nat, Settings>, o: Oid): Option<CleanRef> {
    At(shards, ShardOf(settings, o), o)
  }

  /** The object belongs to the group by its number: the pool is in the upper bits of the inode, and the stripes of an
      inode go through the groups in turn. */
  predicate OfGroup(o: Oid, pool: nat, g: nat, st: Settings)
    requires st.Ok()
  {
    o / STRIPE_SHIFT / POOL_SHIFT == pool && g == o % STRIPE_SHIFT / st.stripe % st.count + 1
  }

  /** Every entry is in the shard where lookups expect it. */
  ghost predicate Settled(shards: map<ShardId, Shard>, settings: map<nat, Settings>) {
    forall id, o :: At(shards, id, o).Some? ==> ShardOf(settings, o) == id
  }

  /** `r` is `into` with the entries of `from`, each at its new home. */
  ghost predicate MovedInto(from: Shard, left: Shard, pool: nat, st: Settings, into: map<ShardId, Shard>,
          r: map<ShardId, Shard>)
    requires st.Ok()
  {
    forall id, o :: At(r, id, o) == if o in from && o !in left && id == Home(pool, st, o) then Some(from[o])
        else At(into, id, o)
  }

  method MoveShard(from: Shard, pool: nat, st: Settings, into: map<ShardId, Shard>) returns (r: map<ShardId, Shard>)
    requires st.Ok()
    ensures MovedInto(from, map[], pool, st, into, r) && forall id :: id in r ==> id in into || id.pool == pool
  {
    hide Home;
    r := into;
    var left := from;
    while left != map[]
      invariant forall o :: o in left ==> o in from && left[o] == from[o]
      invariant MovedInto(from, left, pool, st, into, r) && forall id :: id in r ==> id in into || id.pool == pool
      decreases |left|
    {
      var o :| o in left;
      var id := Home(pool, st, o);
      ghost var r0, left0 := r, left;
      r := r[id := (if id in r then r[id] else map[])[o := left[o]]];
      left := left - {o};
      forall i, p
        ensures At(r, i, p) == if p in from && p !in left && i == Home(pool, st, p) then Some(from[p])
            else At(into, i, p)
      {
        assert At(r, i, p) == if i == id && p == o then Some(left0[o]) else At(r0, i, p);
      }
    }
  }

  /** While a pool is being divided anew: an entry of the pool is at its new home as soon as its old
      shard is gone. */
  ghost predicate Halfway(all: map<ShardId, Shard>, settings: map<nat, Settings>, pool: nat, st: Settings,
                          rest: map<ShardId, Shard>, moved: map<ShardId, Shard>)
    requires st.Ok()
  {
    && (forall id, o :: At(rest, id, o) == if id in rest then At(all, id, o) else None)
    && (forall id :: id in all && id.pool != pool ==> id in rest)
    && (forall id :: id in moved ==> id.pool == pool)
    && (forall id, o :: At(moved, id, o) ==
          if PoolOf(o) == pool && id == Home(pool, st, o) && ShardOf(settings, o) !in rest then Lookup(all, settings, o)
              else None)
  }

  lemma HalfwayStep(all: map<ShardId, Shard>, settings: map<nat, Settings>, pool: nat, st: Settings,
                    rest: map<ShardId, Shard>, moved: map<ShardId, Shard>, id: ShardId, moved': map<ShardId, Shard>)
    requires st.Ok() && Settled(all, settings) && Halfway(all, settings, pool, st, rest, moved)
    requires id in rest && id.pool == pool && MovedInto(rest[id], map[], pool, st, moved, moved')
    requires forall i :: i in moved' ==> i in moved || i.pool == pool
    ensures Halfway(all, settings, pool, st, rest - {id}, moved')
  {
    hide Home;
    var rest' := rest - {id};
    forall i, o ensures At(rest', i, o) == if i in rest' then At(all, i, o) else None {
      assert At(rest, i, o) == At(rest, i, o);
    }
    forall i, o
      ensures At(moved', i, o) ==
              if PoolOf(o) == pool && i == Home(pool, st, o) && ShardOf(settings, o) !in rest'
              then Lookup(all, settings, o) else None
    {
      assert At(rest, id, o) == At(all, id, o);
      assert At(moved', i, o) == if o in rest[id] && i == Home(pool, st, o) then Some(rest[id][o]) else At(moved, i, o);
    }
  }

  /** What is listed as a group is what belongs to it. */
  lemma GroupsRight(shards: map<ShardId, Shard>, settings: map<nat, Settings>, pool: nat, st: Settings)
    requires Settled(shards, settings) && st.Ok() && pool in settings && settings[pool] == st
    ensures forall g: nat, o :: At(shards, ShardId(pool, g), o).Some? ==> OfGroup(o, pool, g, st)
  {
    forall g: nat, o | At(shards, ShardId(pool, g), o).Some? ensures OfGroup(o, pool, g, st) {
      assert ShardOf(settings, o) == ShardId(pool, g);
    }
  }

  class CleanDb {
    var shards: map<ShardId, Shard>
    var settings: map<nat, Settings>

    ghost predicate Valid()
      reads this
    {
      Settled(shards, settings)
    }

    constructor ()
      ensures Valid() && shards == map[] && settings == map[]
    {
      shards, settings := map[], map[];
    }

    /** `reshard_clean_db`: divides a pool into groups, or into a different number of them. */
    method Reshard(pool: nat, st: Settings)
      requires Valid() && st.Ok()
      modifies this
      ensures Valid() && settings == old(settings)[pool := st]
      ensures forall o :: Lookup(shards, settings, o) == old(Lookup(shards, settings, o))
      ensures forall g: nat, o :: At(shards, ShardId(pool, g), o).Some? ==> OfGroup(o, pool, g, st)
    {
      hide Home, Halfway, Settled, Lookup;
      var all, was := shards, settings;
      var todo := set id | id in all && id.pool == pool;
      var rest, moved: map<ShardId, Shard> := all, map[];
      HalfwayStart(all, was, pool, st);
      while todo != {}
        invariant Halfway(all, was, pool, st, rest, moved)
        invariant forall id :: id in todo <==> id in rest && id.pool == pool
        invariant shards == all && settings == was
        decreases |todo|
      {
        var id :| id in todo;
        var moved' := MoveShard(rest[id], pool, st, moved);
        HalfwayStep(all, was, pool, st, rest, moved, id, moved');
        rest, moved, todo := rest - {id}, moved', todo - {id};
      }
      HalfwayEnd(all, was, pool, st, rest, moved);
      shards, settings := rest + moved, was[pool := st];
      GroupsRight(shards, settings, pool, st);
    }
  }

  lemma HalfwayStart(all: map<ShardId, Shard>, settings: map<nat, Settings>, pool: nat, st: Settings)
    requires st.Ok()
    ensures Halfway(all, settings, pool, st, all, map[])
  {
  }

  lemma HalfwayEnd(all: map<ShardId, Shard>, settings: map<nat, Settings>, pool: nat, st: Settings,
                   rest: map<ShardId, Shard>, moved: map<ShardId, Shard>)
    requires st.Ok() && Settled(all, settings) && Halfway(all, settings, pool, st, rest, moved)
    requires forall id :: id in rest ==> id.pool != pool
    ensures Settled(rest + moved, settings[pool := st])
    ensures forall o :: Lookup(rest + moved, settings[pool := st], o) == Lookup(all, settings, o)
  {
    var shards, settings' := rest + moved, settings[pool := st];
    forall id, o ensures At(shards, id, o) == if id in moved then At(moved, id, o) else At(rest, id, o) { }
    forall o ensures Lookup(shards, settings', o) == Lookup(all, settings, o) {
      var id := ShardOf(settings', o);
      assert At(shards, id, o) == if id in moved then At(moved, id, o) else At(rest, id, o);
      assert At(rest, id, o) == if id in rest then At(all, id, o) else None;
      if PoolOf(o) == pool { assert At(moved, id, o) == Lookup(all, settings, o); }
    }
    forall id, o | At(shards, id, o).Some? ensures ShardOf(settings', o) == id {
      assert At(shards, id, o) == if id in moved then At(moved, id, o) else At(rest, id, o);
      assert At(rest, id, o) == if id in rest then At(all, id, o) else None;
    }
  }

  /** A listing of one group finds all objects of the group in its shard, and nothing else. */
  lemma GroupShard(shards: map<ShardId, Shard>, settings: map<nat, Settings>, pool: nat, group: nat, o: Oid)
    requires Settled(shards, settings) && pool in settings && settings[pool].Ok()
    ensures At(shards, ShardId(pool, group), o).Some? <==>
              PoolOf(o) == pool && settings[pool].Group(o) == group && Lookup(shards, settings, o).Some?
  {
  }
}
