/** The `/v1/models` list builder and its cache, as heap code over a pool. */
module ModelList {
  import opened Options
  import opened PoolSpec
  import opened Backends

  class Aggregator {
    const pool: Pool
    const override: string
    var cached: Option<seq<Model>>
    var cachedVer: nat

    constructor (pool: Pool, override: string)
      ensures this.pool == pool && this.override == override && cached == None
    {
      this.pool := pool;
      this.override := override;
      cached := None;
      cachedVer := 0;
    }

    method ResolveOwnedBy(b: Backend) returns (owner: string)
      ensures owner == ResolveOwner(override, b.settings.ownedBy)
    {
      if override != "" { return override; }
      if b.settings.ownedBy != "" { return b.settings.ownedBy; }
      owner := "self-hosted";
    }

    /** The models of one backend, appended unless their id has been seen. */
    method AddModels(b: Backend, seen: set<string>, models: seq<Model>) returns (seen': set<string>, models': seq<Model>)
      requires forall id :: id in seen <==> Listed(models, id)
      ensures models' == OfferAll(models, b.settings.models, ResolveOwner(override, b.settings.ownedBy))
      ensures forall id :: id in seen' <==> Listed(models', id)
    {
      seen', models' := seen, models;
      ghost var owner := ResolveOwner(override, b.settings.ownedBy);
      var ids := b.settings.models;
      for j := 0 to |ids|
        invariant forall id :: id in seen' <==> Listed(models', id)
        invariant OfferAll(models', ids[j..], owner) == OfferAll(models, ids, owner)
      {
        assert ids[j..][1..] == ids[j + 1..];
        if ids[j] !in seen' {
          var ownedBy := ResolveOwnedBy(b);
          ListedSnoc(models', Model(ids[j], ownedBy));
          seen' := seen' + {ids[j]};
          models' := models' + [Model(ids[j], ownedBy)];
        }
      }
    }

    /** The loop over the pool produces exactly the list `PoolSpec` describes. */
    method Build() returns (models: seq<Model>)
      ensures models == ListModels(override, ViewsOf(pool.backends))
    {
      var seen: set<string> := {};
      models := [];
      ghost var views := ViewsOf(pool.backends);
      for i := 0 to |pool.backends|
        invariant forall id :: id in seen <==> Listed(models, id)
        invariant ListFrom(override, views[i..], models) == ListModels(override, views)
      {
        assert views[i..][1..] == views[i + 1..];
        var b := pool.backends[i];
        assert views[i] == b.AsView();
        if b.healthy || b.settings.isStatic {
          seen, models := AddModels(b, seen, models);
        }
      }
    }

    /** A hit needs a cached list of the version just read that has not expired; anything else is
        rebuilt and remembered under that version. */
    method GetOrRebuild(expired: bool) returns (list: seq<Model>)
      modifies this`cached, this`cachedVer
      ensures cached == Some(list) && cachedVer == pool.healthVersion.value
      ensures list == if old(cached).Some? && !expired && old(cachedVer) == pool.healthVersion.value
                      then old(cached).value else ListModels(override, ViewsOf(pool.backends))
    {
      var currentVer := pool.healthVersion.value;
      if cached.Some? && !expired && cachedVer == currentVer {
        return cached.value;
      }
      list := Build();
      cached := Some(list);
      cachedVer := currentVer;
    }

    method Reload()
      modifies this`cached
      ensures cached == None
    {
      cached := None;
    }
  }

  lemma ListedSnoc(models: seq<Model>, m: Model)
    ensures forall id :: Listed(models + [m], id) <==> Listed(models, id) || id == m.id
  {
    forall id ensures Listed(models + [m], id) <==> Listed(models, id) || id == m.id {
      ListedConcat(models, [m], id);
      if id == m.id { assert [m][0].id == id; }
    }
  }
}
