/** `DAOFacadeCache`: per-type caches in front of a `DAOFacadeStore`. Reads fill the cache on a miss,
    writes go to the store first and then to the cache, deletes and membership changes evict. */
module Caches {
  import opened Wrappers
  import opened Uuids
  import opened Models
  import opened Codecs
  import opened Stores

  class DaoFacadeCache {
    const delegate: DaoFacadeStore
    var guildCache: map<Uuid, Guild>
    var playerCache: map<Uuid, Player>

    /** Every cached entry is what the store would read for its id. */
    ghost predicate Coherent()
      reads this, delegate
    {
      && (forall id :: id in guildCache ==> ReadGuild(delegate.codec, delegate.files, id) == Some(guildCache[id]))
      && (forall id :: id in playerCache ==> ReadPlayer(delegate.codec, delegate.files, id) == Some(playerCache[id]))
    }

    constructor (delegate: DaoFacadeStore)
      ensures this.delegate == delegate
      ensures guildCache == map[] && playerCache == map[]
      ensures Coherent()
    {
      this.delegate := delegate;
      guildCache := map[];
      playerCache := map[];
    }

    /** Ehcache may drop entries on its own (capacity, tiering): a cache that only loses entries stays coherent. */
    method Evict(guildIds: set<Uuid>, playerIds: set<Uuid>)
      modifies this
      ensures guildCache == old(guildCache) - guildIds && playerCache == old(playerCache) - playerIds
      ensures old(Coherent()) ==> Coherent()
    {
      guildCache := guildCache - guildIds;
      playerCache := playerCache - playerIds;
    }

    /** `playerById(id)`: a hit answers from the cache; a miss asks the store and caches a found player.
        (`playerCache.put(id, null)` throws and is caught, so an absent player is not cached.) */
    method PlayerById(id: Uuid) returns (p: Option<Player>)
      modifies this
      ensures guildCache == old(guildCache)
      ensures id in old(playerCache) ==> p == Some(old(playerCache)[id]) && playerCache == old(playerCache)
      ensures id !in old(playerCache) ==>
        && p == ReadPlayer(delegate.codec, delegate.files, id)
        && playerCache == if p.Some? then old(playerCache)[id := p.value] else old(playerCache)
      ensures old(Coherent()) ==> Coherent() && p == ReadPlayer(delegate.codec, delegate.files, id)
    {
      if id in playerCache {
        return Some(playerCache[id]);
      }
      p := delegate.PlayerById(id);
      if p.Some? {
        playerCache := playerCache[id := p.value];
      }
    }

    /** `guildById(id)`: the same read-through for guilds. */
    method GuildById(id: Uuid) returns (g: Option<Guild>)
      modifies this
      ensures playerCache == old(playerCache)
      ensures id in old(guildCache) ==> g == Some(old(guildCache)[id]) && guildCache == old(guildCache)
      ensures id !in old(guildCache) ==>
        && g == ReadGuild(delegate.codec, delegate.files, id)
        && guildCache == if g.Some? then old(guildCache)[id := g.value] else old(guildCache)
      ensures old(Coherent()) ==> Coherent() && g == ReadGuild(delegate.codec, delegate.files, id)
    {
      if id in guildCache {
        return Some(guildCache[id]);
      }
      g := delegate.GuildById(id);
      if g.Some? {
        guildCache := guildCache[id := g.value];
      }
    }

    /** `byId(type, id)`: `guildById` for `"guild"`, `playerById` for every other type. Unlike the store's
        `byId`, a type other than `"guild"` reads the player file, whatever the type. */
    method ById(tag: string, id: Uuid) returns (r: Option<Record>)
      modifies this
      ensures tag == GuildTag ==>
        && playerCache == old(playerCache)
        && (id in old(guildCache) ==> r == Some(GuildRecord(old(guildCache)[id])) && guildCache == old(guildCache))
        && (id !in old(guildCache) ==>
              && r == ReadRecord(delegate.codec, delegate.files, GuildTag, id)
              && guildCache == if r.Some? then old(guildCache)[id := r.value.guild] else old(guildCache))
      ensures tag != GuildTag ==>
        && guildCache == old(guildCache)
        && (id in old(playerCache) ==> r == Some(PlayerRecord(old(playerCache)[id])) && playerCache == old(playerCache))
        && (id !in old(playerCache) ==>
              && r == ReadRecord(delegate.codec, delegate.files, PlayerTag, id)
              && playerCache == if r.Some? then old(playerCache)[id := r.value.player] else old(playerCache))
      ensures old(Coherent()) ==> Coherent()
      ensures old(Coherent()) ==> r == ReadRecord(delegate.codec, delegate.files, if tag == GuildTag then GuildTag else PlayerTag, id)
    {
      if tag == GuildTag {
        var g := GuildById(id);
        r := if g.Some? then Some(GuildRecord(g.value)) else None;
      } else {
        var p := PlayerById(id);
        r := if p.Some? then Some(PlayerRecord(p.value)) else None;
      }
    }

    /** `add(record)`: the store first, then the cache. `record as Guild` (`as Player`) throws when the tag
        names the other class, after the store was written. */
    method Add(r: Record) returns (result: Result<Uuid, Error>)
      requires delegate.Valid()
      modifies this, delegate
      ensures delegate.Valid()
      ensures delegate.files == Written(delegate.codec, old(delegate.files), r)
      ensures delegate.guildIds == GuildIndexAfterAdd(old(delegate.guildIds), r)
      ensures delegate.playerIds == PlayerIndexAfterAdd(old(delegate.playerIds), r)
      ensures TagSelectsClass(r) ==> result == Success(r.Id())
      ensures !TagSelectsClass(r) ==> result == Failure(ClassCast) && guildCache == old(guildCache) && playerCache == old(playerCache)
      ensures TagSelectsClass(r) && r.GuildRecord? ==> guildCache == old(guildCache)[r.Id() := r.guild] && playerCache == old(playerCache)
      ensures TagSelectsClass(r) && r.PlayerRecord? ==> playerCache == old(playerCache)[r.Id() := r.player] && guildCache == old(guildCache)
      ensures old(Coherent()) && RoundTrips(delegate.codec) && Storable(r) ==> Coherent()
      ensures old(delegate.Consistent()) && RoundTrips(delegate.codec) && Storable(r) ==> delegate.Consistent()
    {
      var id := r.Id();
      var _ := delegate.Add(r);
      if r.Tag() == GuildTag {
        if r.GuildRecord? {
          guildCache := guildCache[id := r.guild];
          result := Success(id);
        } else {
          result := Failure(ClassCast);
        }
      } else {
        if r.PlayerRecord? {
          playerCache := playerCache[id := r.player];
          result := Success(id);
        } else {
          result := Failure(ClassCast);
        }
      }
      if old(Coherent()) && RoundTrips(delegate.codec) && Storable(r) {
        WriteKeepsCoherence(old(delegate.files), r);
      }
    }

    /** The cache entries other than the written one still agree after a write. */
    lemma WriteKeepsCoherence(dir: Directory, r: Record)
      requires RoundTrips(delegate.codec) && Storable(r)
      requires delegate.files == Written(delegate.codec, dir, r)
      requires forall id :: id in guildCache && (r.Tag() != GuildTag || id != r.Id()) ==> ReadGuild(delegate.codec, dir, id) == Some(guildCache[id])
      requires forall id :: id in playerCache && (r.Tag() != PlayerTag || id != r.Id()) ==> ReadPlayer(delegate.codec, dir, id) == Some(playerCache[id])
      requires r.GuildRecord? && r.Id() in guildCache ==> guildCache[r.Id()] == r.guild
      requires r.PlayerRecord? && r.Id() in playerCache ==> playerCache[r.Id()] == r.player
      ensures Coherent()
    {
      var c := delegate.codec;
      forall id | id in guildCache
        ensures ReadGuild(c, delegate.files, id) == Some(guildCache[id])
      {
        if r.Tag() == GuildTag && id == r.Id() {
          ReadAfterWrite(c, dir, r);
        } else {
          WriteLeavesOthers(c, dir, r, GuildTag, id);
        }
      }
      forall id | id in playerCache
        ensures ReadPlayer(c, delegate.files, id) == Some(playerCache[id])
      {
        if r.Tag() == PlayerTag && id == r.Id() {
          ReadAfterWrite(c, dir, r);
        } else {
          WriteLeavesOthers(c, dir, r, PlayerTag, id);
        }
      }
    }

    /** `remove(type, id)`: the store first, then the cache entry of the type's cache; always `true`. */
    method Remove(tag: string, id: Uuid, removed: bool) returns (ok: bool)
      requires delegate.Valid()
      modifies this, delegate
      ensures delegate.Valid()
      ensures ok
      ensures delegate.files == if removed then Deleted(old(delegate.files), tag, id) else old(delegate.files)
      ensures delegate.guildIds == GuildIndexAfterRemove(old(delegate.guildIds), tag, id)
      ensures delegate.playerIds == PlayerIndexAfterRemove(old(delegate.playerIds), tag, id)
      ensures tag == GuildTag ==> guildCache == old(guildCache) - {id} && playerCache == old(playerCache)
      ensures tag != GuildTag ==> playerCache == old(playerCache) - {id} && guildCache == old(guildCache)
      ensures old(Coherent()) ==> Coherent()
      ensures old(delegate.Consistent()) && (tag == GuildTag || tag == PlayerTag) && (removed || FileName(tag, id) !in old(delegate.files)) ==> delegate.Consistent()
    {
      ghost var dir := delegate.files;
      var _ := delegate.Remove(tag, id, removed);
      if tag == GuildTag {
        guildCache := guildCache - {id};
      } else {
        playerCache := playerCache - {id};
      }
      ok := true;
      if old(Coherent()) && removed {
        var c := delegate.codec;
        forall x | x in guildCache
          ensures ReadGuild(c, delegate.files, x) == Some(guildCache[x])
        {
          DeleteLeavesOthers(c, dir, tag, id, GuildTag, x);
        }
        forall x | x in playerCache
          ensures ReadPlayer(c, delegate.files, x) == Some(playerCache[x])
        {
          DeleteLeavesOthers(c, dir, tag, id, PlayerTag, x);
        }
      }
    }

    /** `removePlayerFromGuild`: the store's operation, then the guild's entry is evicted when it answered `true`. */
    method RemovePlayerFromGuild(playerId: Uuid, guildId: Uuid) returns (r: Result<bool, Error>)
      requires delegate.Valid()
      modifies this, delegate
      ensures delegate.Valid()
      ensures var plan := RemovalPlan(delegate.codec, old(delegate.files), playerId, guildId);
        && r == (if plan.Failure? then Failure(plan.error) else Success(plan.value.Some?))
        && if plan.Success? && plan.value.Some? then
             && delegate.files == Written(delegate.codec, old(delegate.files), GuildRecord(plan.value.value))
             && delegate.guildIds == GuildIndexAfterAdd(old(delegate.guildIds), GuildRecord(plan.value.value))
             && delegate.playerIds == PlayerIndexAfterAdd(old(delegate.playerIds), GuildRecord(plan.value.value))
           else
             && delegate.files == old(delegate.files)
             && delegate.guildIds == old(delegate.guildIds) && delegate.playerIds == old(delegate.playerIds)
      ensures playerCache == old(playerCache)
      ensures guildCache == if r == Success(true) then old(guildCache) - {guildId} else old(guildCache)
      ensures old(delegate.Consistent()) && RoundTrips(delegate.codec) ==> delegate.Consistent()
      ensures old(Coherent()) && old(delegate.Consistent()) ==> Coherent()
    {
      ghost var dir := delegate.files;
      r := delegate.RemovePlayerFromGuild(playerId, guildId);
      if r == Success(true) {
        guildCache := guildCache - {guildId};
      }
      if old(Coherent()) && old(delegate.Consistent()) {
        var plan := RemovalPlan(delegate.codec, dir, playerId, guildId);
        if plan.Success? && plan.value.Some? {
          MutationKeepsCoherence(dir, guildId, plan.value.value);
        }
      }
    }

    /** `addGuildMember`: the store's operation, then the guild's entry is evicted when it answered `true`. */
    method AddGuildMember(playerId: Uuid, guildId: Uuid) returns (r: Result<bool, Error>)
      requires delegate.Valid()
      modifies this, delegate
      ensures delegate.Valid()
      ensures var plan := AdditionPlan(delegate.codec, old(delegate.files), playerId, guildId);
        && r == (if plan.Failure? then Failure(plan.error) else Success(plan.value.Some?))
        && if plan.Success? && plan.value.Some? then
             && delegate.files == Written(delegate.codec, old(delegate.files), GuildRecord(plan.value.value))
             && delegate.guildIds == GuildIndexAfterAdd(old(delegate.guildIds), GuildRecord(plan.value.value))
             && delegate.playerIds == PlayerIndexAfterAdd(old(delegate.playerIds), GuildRecord(plan.value.value))
           else
             && delegate.files == old(delegate.files)
             && delegate.guildIds == old(delegate.guildIds) && delegate.playerIds == old(delegate.playerIds)
      ensures playerCache == old(playerCache)
      ensures guildCache == if r == Success(true) then old(guildCache) - {guildId} else old(guildCache)
      ensures old(delegate.Consistent()) && RoundTrips(delegate.codec) ==> delegate.Consistent()
      ensures old(Coherent()) && old(delegate.Consistent()) ==> Coherent()
    {
      ghost var dir := delegate.files;
      r := delegate.AddGuildMember(playerId, guildId);
      if r == Success(true) {
        guildCache := guildCache - {guildId};
      }
      if old(Coherent()) && old(delegate.Consistent()) {
        var plan := AdditionPlan(delegate.codec, dir, playerId, guildId);
        if plan.Success? && plan.value.Some? {
          MutationKeepsCoherence(dir, guildId, plan.value.value);
        }
      }
    }

    /** A membership change rewrites only the guild's own file; with that entry evicted the cache agrees again. */
    lemma MutationKeepsCoherence(dir: Directory, guildId: Uuid, u: Guild)
      requires WellKeyed(delegate.codec, dir)
      requires ReadGuild(delegate.codec, dir, guildId).Some?
      requires u.id == ReadGuild(delegate.codec, dir, guildId).value.id && u.tag == ReadGuild(delegate.codec, dir, guildId).value.tag
      requires delegate.files == Written(delegate.codec, dir, GuildRecord(u))
      requires guildId !in guildCache
      requires forall id :: id in guildCache ==> ReadGuild(delegate.codec, dir, id) == Some(guildCache[id])
      requires forall id :: id in playerCache ==> ReadPlayer(delegate.codec, dir, id) == Some(playerCache[id])
      ensures Coherent()
    {
      var c := delegate.codec;
      PlannedGuildIsStorable(c, dir, u, guildId);
      forall id | id in guildCache
        ensures ReadGuild(c, delegate.files, id) == Some(guildCache[id])
      {
        WriteLeavesOthers(c, dir, GuildRecord(u), GuildTag, id);
      }
      forall id | id in playerCache
        ensures ReadPlayer(c, delegate.files, id) == Some(playerCache[id])
      {
        WriteLeavesOthers(c, dir, GuildRecord(u), PlayerTag, id);
      }
    }

    /** `listAllPlayers()`, `listAllGuilds()`, `playerProfile(id)`, `guildProfile(id)`: passed to the store,
        never cached. */
    method ListAllPlayers() returns (r: Result<seq<Player>, Error>)
      ensures r == PlayerListing(delegate.codec, delegate.files, delegate.playerIds)
    {
      r := delegate.ListAllPlayers();
    }

    method ListAllGuilds() returns (r: Result<seq<Guild>, Error>)
      ensures r == GuildListing(delegate.codec, delegate.files, delegate.guildIds)
    {
      r := delegate.ListAllGuilds();
    }

    method PlayerProfile(id: Uuid) returns (r: Result<Option<Player>, Error>)
      ensures r == ResolvedPlayer(delegate.codec, delegate.files, delegate.guildIds, id)
    {
      r := delegate.PlayerProfile(id);
    }

    method GuildProfile(id: Uuid) returns (r: Result<Option<Guild>, Error>)
      ensures r == ResolvedGuild(delegate.codec, delegate.files, id)
    {
      r := delegate.GuildProfile(id);
    }
  }

  /** A guild read right after a successful `addGuildMember` through the cache shows the new member,
      even when a stale copy of that guild was cached before. */
  method JoinIsVisible(cache: DaoFacadeCache, playerId: Uuid, guildId: Uuid) returns (after: Option<Guild>)
    requires cache.delegate.Consistent() && cache.Coherent() && RoundTrips(cache.delegate.codec)
    modifies cache, cache.delegate
    ensures cache.delegate.Consistent() && cache.Coherent()
    ensures var plan := AdditionPlan(cache.delegate.codec, old(cache.delegate.files), playerId, guildId);
      plan.Success? && plan.value.Some? ==> after == Some(plan.value.value) && playerId in after.value.memberIds
  {
    var stale := cache.GuildById(guildId);
    ghost var dir := cache.delegate.files;
    var joined := cache.AddGuildMember(playerId, guildId);
    after := cache.GuildById(guildId);
    ghost var plan := AdditionPlan(cache.delegate.codec, dir, playerId, guildId);
    if plan.Success? && plan.value.Some? {
      var u := plan.value.value;
      PlannedGuildIsStorable(cache.delegate.codec, dir, u, guildId);
      ReadAfterWrite(cache.delegate.codec, dir, GuildRecord(u));
      AdditionAddsOnce(cache.delegate.codec, dir, playerId, guildId);
    }
  }
}
