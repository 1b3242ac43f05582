/** The base-image cache written out over the pools as the backend lists them: which pools serve,
  which one a request takes, where copies are found, and what no request ever touches. */
module BaseImageRules {
  import opened BaseImageCache
  import opened Paths
  import opened Wrappers

  /** A pool of the right purpose whose state is good or not reported. */
  predicate Serves(cfg: Config, p: Pool) {
    && cfg.hasCompute && cfg.pools.Some? && p in cfg.pools.value
    && p.golden && (p.health == Usable || p.health == Unreported)
  }

  lemma ServingExactly(cfg: Config, p: Pool)
    ensures p in BaseImagePools(cfg) <==> Serves(cfg, p)
  {
    if cfg.hasCompute && cfg.pools.Some? { OrderedExact(cfg.pools.value, cfg.defaultPool); }
  }

  // ---- which pool a request takes ----

  lemma {:induction false} NamedFirst(pools: seq<Pool>, name: string, p: Pool)
    requires p in pools && p.name == name && forall q | q in pools && q.name == name :: q == p
    ensures PoolNamed(pools, name) == Some(p)
  {
    if pools[0].name == name {
      assert pools[0] in pools;
    } else {
      assert forall q | q in pools[1..] :: q in pools;
      NamedFirst(pools[1..], name, p);
    }
  }

  lemma {:induction false} NobodyNamed(pools: seq<Pool>, name: string)
    requires forall q | q in pools :: q.name != name
    ensures PoolNamed(pools, name) == None
  {
    if pools != [] {
      assert pools[0] in pools && forall q | q in pools[1..] :: q in pools;
      NobodyNamed(pools[1..], name);
    }
  }

  /** The only serving pool of its name. */
  ghost predicate SoleServer(cfg: Config, p: Pool) {
    Serves(cfg, p) && forall q | Serves(cfg, q) && q.name == p.name :: q == p
  }

  lemma SoleIsNamed(cfg: Config, p: Pool)
    requires SoleServer(cfg, p)
    ensures PoolNamed(BaseImagePools(cfg), p.name) == Some(p) && BaseImagePools(cfg) != []
  {
    var pools := BaseImagePools(cfg);
    ServingExactly(cfg, p);
    forall q | q in pools && q.name == p.name ensures q == p { ServingExactly(cfg, q); }
    NamedFirst(pools, p.name, p);
  }

  /** A request that names a pool takes it exactly when it serves and its directory can be read. */
  lemma NamedRequest(cfg: Config, requested: string, p: Pool)
    requires requested != "" && p.name == requested && SoleServer(cfg, p)
    ensures Resolve(cfg, requested) == if p.dir.Some? then Some(p) else None
  {
    SoleIsNamed(cfg, p);
  }

  lemma UnservedRequest(cfg: Config, requested: string)
    requires forall p | Serves(cfg, p) :: requested != "" && p.name != requested
    ensures Resolve(cfg, requested) == None
  {
    var pools := BaseImagePools(cfg);
    forall q | q in pools ensures requested != "" && q.name != requested { ServingExactly(cfg, q); }
    if pools != [] {
      assert pools[0] in pools;
      NobodyNamed(pools, requested);
    }
  }

  /** A request that names none takes the default pool exactly when that serves and can be read. */
  lemma DefaultRequest(cfg: Config, p: Pool)
    requires p.name == cfg.defaultPool && SoleServer(cfg, p)
    ensures Resolve(cfg, "") == if p.dir.Some? then Some(p) else None
  {
    var pools := BaseImagePools(cfg);
    SoleIsNamed(cfg, p);
    OrderedExact(cfg.pools.value, cfg.defaultPool);
    ServingExactly(cfg, p);
    var j :| 0 <= j < |pools| && pools[j] == p;
    assert pools[0].name == cfg.defaultPool;
  }

  /** The first pool in the backend's list that serves. */
  ghost predicate FirstServer(cfg: Config, i: nat) {
    && cfg.pools.Some? && i < |cfg.pools.value| && Serves(cfg, cfg.pools.value[i])
    && forall k | 0 <= k < i :: !Serves(cfg, cfg.pools.value[k])
  }

  lemma {:induction false} NoneOrdered(pools: seq<Pool>, def: string)
    requires forall k | 0 <= k < |pools| :: !Eligible(pools[k])
    ensures Ordered(pools, def) == []
  {
    if pools != [] { NoneOrdered(pools[..|pools| - 1], def); }
  }

  lemma {:induction false} OrderedFirst(pools: seq<Pool>, def: string, i: nat)
    requires i < |pools| && Eligible(pools[i]) && forall k | 0 <= k < i :: !Eligible(pools[k])
    requires forall q | q in pools && Eligible(q) :: q.name != def
    ensures Ordered(pools, def) != [] && Ordered(pools, def)[0] == pools[i]
  {
    var init, last := pools[..|pools| - 1], pools[|pools| - 1];
    assert last in pools && forall q | q in init :: q in pools;
    if i < |init| {
      OrderedFirst(init, def, i);
    } else {
      NoneOrdered(init, def);
    }
  }

  /** When the default pool does not serve, a request that names none takes the first that does, if its
      directory can be read. */
  lemma FallbackRequest(cfg: Config, i: nat)
    requires FirstServer(cfg, i) && forall q | Serves(cfg, q) :: q.name != cfg.defaultPool
    ensures Resolve(cfg, "") == if cfg.pools.value[i].dir.Some? then Some(cfg.pools.value[i]) else None
  {
    var all := cfg.pools.value;
    forall k | 0 <= k < |all| ensures Eligible(all[k]) <==> Serves(cfg, all[k]) {
      assert all[k] in all;
    }
    forall q | q in all && Eligible(q) ensures q.name != cfg.defaultPool { assert Serves(cfg, q); }
    OrderedFirst(all, cfg.defaultPool, i);
  }

  // ---- where copies are found ----

  /** The copies of an image: files of more than a mebibyte, in the directory of a pool that serves or
      in the legacy folder, under the names made from the image's id. */
  lemma CopiesWrittenOut(cfg: Config, fs: Files, id: string, p: Path)
    ensures p in Copies(cfg, fs, id) <==>
              && id != "" && '/' !in id && '\\' !in id && !HasDotDot(id)
              && p in fs && !fs[p].isDir && fs[p].size > 1048576
              && (p == Path(cfg.legacyDir, id + ".qcow2")
                  || (p.name == "base-" + id + ".qcow2" && exists pool :: Serves(cfg, pool) && pool.dir == Some(p.dir)))
  {
    CopiesExact(cfg, fs, id, p);
    if pool :| pool in BaseImagePools(cfg) && pool.dir == Some(p.dir) { ServingExactly(cfg, pool); }
    if pool :| Serves(cfg, pool) && pool.dir == Some(p.dir) { ServingExactly(cfg, pool); }
  }

  /** Whatever a pull changes is one file, the download, in the directory of a pool that serves and that
      was asked for if one was. */
  lemma PullWritesWhereItMay(cfg: Config, fs: Files, id: string, requested: string, fetched: Option<File>, p: Path)
    ensures var (fs', v) := Pull(cfg, fs, id, requested, fetched);
            && (p in fs ==> p in fs')
            && (p in fs' && (p !in fs || fs'[p] != fs[p]) ==>
                  && v == Pulled && fetched == Some(fs'[p]) && p.name == "base-" + id + ".qcow2"
                  && exists pool :: Serves(cfg, pool) && pool.dir == Some(p.dir) && (requested != "" ==> pool.name == requested))
  {
    if Resolve(cfg, requested).Some? {
      var pool := Resolve(cfg, requested).value;
      ResolvedIsEligible(cfg, requested);
      ServingExactly(cfg, pool);
      NamedIsMember(BaseImagePools(cfg), requested);
    }
  }

  /** A copy lies in the directory of a serving pool called `name`. */
  ghost predicate CopyInPool(cfg: Config, fs: Files, id: string, name: string) {
    exists q :: Serves(cfg, q) && q.name == name && q.dir.Some?
                && Path(q.dir.value, "base-" + id + ".qcow2") in Copies(cfg, fs, id)
  }

  /** The search finds a copy in one of `pools` that is called `name`. */
  ghost predicate FoundUnder(pools: seq<Pool>, fs: Files, id: string, name: string) {
    exists q :: q in pools && q.name == name && q.dir.Some? && Listed(fs, Path(q.dir.value, BaseImageName(id)))
  }

  lemma {:induction false} FoundIn(pools: seq<Pool>, fs: Files, id: string, name: string)
    ensures (exists l :: l in FindIn(pools, fs, id) && l.pool == name) <==> FoundUnder(pools, fs, id, name)
  {
    if pools != [] {
      var init, q := pools[..|pools| - 1], pools[|pools| - 1];
      FoundIn(init, fs, id, name);
      assert pools == init + [q];
      if q.dir.Some? && Listed(fs, Path(q.dir.value, BaseImageName(id))) {
        var l := Location(Path(q.dir.value, BaseImageName(id)), q.name);
        assert l in FindIn(pools, fs, id);
        assert forall x | x in FindIn(pools, fs, id) :: x in FindIn(init, fs, id) || x == l;
      }
    }
  }

  lemma CachedExactly(cfg: Config, fs: Files, id: string, name: string)
    requires name != ""
    ensures CachedIn(FindAll(cfg, fs, id), name) <==> CopyInPool(cfg, fs, id, name)
  {
    var locs := FindAll(cfg, fs, id);
    assert CachedIn(locs, name) <==> exists l :: l in locs && l.pool == name;
    if BadId(id) {
      forall p { CopiesExact(cfg, fs, id, p); }
    } else {
      FoundIn(BaseImagePools(cfg), fs, id, name);
      forall q: Pool | q.dir.Some?
        ensures q in BaseImagePools(cfg) && Listed(fs, Path(q.dir.value, BaseImageName(id)))
                <==> Serves(cfg, q) && Path(q.dir.value, "base-" + id + ".qcow2") in Copies(cfg, fs, id)
      {
        ServingExactly(cfg, q);
        CopiesExact(cfg, fs, id, Path(q.dir.value, BaseImageName(id)));
      }
    }
  }

  /** What a pull into `pool` says: it goes ahead exactly when there is no copy anywhere, and otherwise
      tells whether one of the copies is in a serving pool of that name. */
  lemma PullVerdictExactly(cfg: Config, fs: Files, id: string, requested: string, fetched: Option<File>, pool: Pool)
    requires Resolve(cfg, requested) == Some(pool) && pool.name != ""
    ensures Pull(cfg, fs, id, requested, fetched).1 ==
              if CopyInPool(cfg, fs, id, pool.name) then AlreadyCached
              else if Copies(cfg, fs, id) != {} then CachedElsewhere
              else if fetched.None? then NotFetched else Pulled
  {
    var locs := FindAll(cfg, fs, id);
    if locs != [] { assert locs[0] in locs && locs[0].path in Copies(cfg, fs, id); }
    CachedExactly(cfg, fs, id, pool.name);
  }

  /** A request that takes no pool is told so, and changes nothing. */
  lemma UnresolvedPull(cfg: Config, fs: Files, id: string, requested: string, fetched: Option<File>)
    ensures Resolve(cfg, requested) == None <==> Pull(cfg, fs, id, requested, fetched).1 == BadPool
    ensures Resolve(cfg, requested) == None ==> Pull(cfg, fs, id, requested, fetched).0 == fs
  {
  }

  /** A directory that belongs only to pools that do not serve, such as one that is down: no copy is
      found in it, nothing is deleted from it, and nothing is written to it. */
  lemma DownPoolsUntouched(cfg: Config, fs: Files, id: string, p: Path, answers: Path -> Dependents, removable: Path -> bool,
                           requested: string, fetched: Option<File>)
    requires cfg.pools.Some? ==>
               forall pool | pool in cfg.pools.value && pool.dir == Some(p.dir) :: pool.health == Down || !pool.golden
    requires p.dir != cfg.legacyDir
    ensures p !in Copies(cfg, fs, id)
    ensures var left := Delete(cfg, fs, id, answers, removable).fs; p in fs ==> p in left && left[p] == fs[p]
    ensures var after := Pull(cfg, fs, id, requested, fetched).0; (p in after <==> p in fs) && (p in fs ==> after[p] == fs[p])
  {
    CopiesWrittenOut(cfg, fs, id, p);
    PullWritesWhereItMay(cfg, fs, id, requested, fetched, p);
    var locs := FindAll(cfg, fs, id);
    RemoveAllEffect(fs, locs, removable);
    assert PathsOf(locs) == Copies(cfg, fs, id);
  }
}
