/** The cache of base cloud images: finding every copy, pulling one, deleting them all (`image_hub.go`),
  and the guard against deleting an image that disks are layered on (`backing_guard.go`).
*/
module BaseImageCache {
  import opened Paths
  import opened Wrappers

  /** `backing` is the image a qcow2 overlay is layered on. */
  datatype File = File(size: int, isDir: bool, backing: Option<Path>)

  type Files = map<Path, File>

  datatype Health = Unreported | Usable | Down

  /** `golden`: the purpose admits base images; `dir` is None when the pool's path cannot be read. */
  datatype Pool = Pool(name: string, golden: bool, health: Health, dir: Option<string>)

  /** `pools` is None without a compute connector or when listing fails. */
  datatype Config = Config(hasCompute: bool, pools: Option<seq<Pool>>, defaultPool: string, legacyDir: string)

  /** `pool` is "" for the legacy folder. */
  datatype Location = Location(path: Path, pool: string)

  const MIN_SIZE := 1024 * 1024

  // ---- names ----

  function BaseImageName(id: string): string {
    "base-" + id + ".qcow2"
  }

  function LegacyName(id: string): string {
    id + ".qcow2"
  }

  predicate BadId(id: string) {
    id == "" || '/' in id || '\\' in id || HasDotDot(id)
  }

  lemma BaseNameInjective(id: string, id': string)
    requires BaseImageName(id) == BaseImageName(id')
    ensures id == id'
  {
    var n := BaseImageName(id);
    assert n[5..|n| - 6] == id && n[5..|n| - 6] == id';
  }

  // ---- eligible pools, most preferred first ----

  predicate Eligible(p: Pool) {
    p.golden && p.health != Down
  }

  function Ordered(pools: seq<Pool>, def: string): seq<Pool> {
    if pools == [] then []
    else
      var out, p := Ordered(pools[..|pools| - 1], def), pools[|pools| - 1];
      if !Eligible(p) then out else if p.name == def then [p] + out else out + [p]
  }

  function BaseImagePools(cfg: Config): seq<Pool> {
    if cfg.hasCompute && cfg.pools.Some? then Ordered(cfg.pools.value, cfg.defaultPool) else []
  }

  /** The ordering loses and invents nothing, and every pool before the default one is the default
      one's namesake. */
  lemma {:induction false} OrderedExact(pools: seq<Pool>, def: string)
    ensures forall p :: p in Ordered(pools, def) <==> p in pools && Eligible(p)
    ensures forall i, j | 0 <= i < j < |Ordered(pools, def)| && Ordered(pools, def)[j].name == def :: Ordered(pools, def)[i].name == def
  {
    if pools != [] {
      var init, p := pools[..|pools| - 1], pools[|pools| - 1];
      assert pools == init + [p];
      OrderedExact(init, def);
    }
  }

  // ---- every copy ----

  predicate Listed(fs: Files, p: Path) {
    p in fs && !fs[p].isDir && fs[p].size > MIN_SIZE
  }

  function FindIn(pools: seq<Pool>, fs: Files, id: string): seq<Location> {
    if pools == [] then []
    else
      var out, p := FindIn(pools[..|pools| - 1], fs, id), pools[|pools| - 1];
      if p.dir.Some? && Listed(fs, Path(p.dir.value, BaseImageName(id))) then
        out + [Location(Path(p.dir.value, BaseImageName(id)), p.name)]
      else out
  }

  function LegacyPath(cfg: Config, id: string): Path {
    Path(cfg.legacyDir, LegacyName(id))
  }

  function FindAll(cfg: Config, fs: Files, id: string): seq<Location> {
    if BadId(id) then []
    else
      FindIn(BaseImagePools(cfg), fs, id)
      + if Listed(fs, LegacyPath(cfg, id)) then [Location(LegacyPath(cfg, id), "")] else []
  }

  /** Where a copy of the image may lie. */
  predicate Candidate(cfg: Config, id: string, p: Path) {
    !BadId(id) &&
    (p == LegacyPath(cfg, id) ||
     (p.name == BaseImageName(id) && exists pool :: pool in BaseImagePools(cfg) && pool.dir == Some(p.dir)))
  }

  function Copies(cfg: Config, fs: Files, id: string): set<Path> {
    set l | l in FindAll(cfg, fs, id) :: l.path
  }

  lemma {:induction false} FindInExact(pools: seq<Pool>, fs: Files, id: string, p: Path)
    ensures (exists l :: l in FindIn(pools, fs, id) && l.path == p) <==>
              Listed(fs, p) && p.name == BaseImageName(id) && exists pool :: pool in pools && pool.dir == Some(p.dir)
  {
    if pools != [] {
      var init, q := pools[..|pools| - 1], pools[|pools| - 1];
      assert pools == init + [q];
      FindInExact(init, fs, id, p);
      var before := FindIn(init, fs, id);
      assert forall l | l in before :: l in FindIn(pools, fs, id);
      if q.dir == Some(p.dir) && p.name == BaseImageName(id) && Listed(fs, p) {
        assert Location(p, q.name) in FindIn(pools, fs, id);
      }
    }
  }

  /** The search finds exactly the candidates that are there and large enough. */
  lemma CopiesExact(cfg: Config, fs: Files, id: string, p: Path)
    ensures p in Copies(cfg, fs, id) <==> Candidate(cfg, id, p) && Listed(fs, p)
  {
    if !BadId(id) {
      var inPools := FindIn(BaseImagePools(cfg), fs, id);
      FindInExact(BaseImagePools(cfg), fs, id, p);
      assert forall l | l in inPools :: l in FindAll(cfg, fs, id);
      if p == LegacyPath(cfg, id) && Listed(fs, p) { assert Location(p, "") in FindAll(cfg, fs, id); }
      if p in Copies(cfg, fs, id) {
        var l :| l in FindAll(cfg, fs, id) && l.path == p;
        assert l in inPools || l == Location(LegacyPath(cfg, id), "");
      }
    }
  }

  // ---- delete ----

  /** What the backend says of the disks layered on a file. */
  datatype Dependents = Unknown | Named(disks: seq<string>)

  /** An answer that names nobody is right. */
  ghost predicate Honest(fs: Files, answers: Path -> Dependents) {
    forall p, f | answers(p) == Named([]) && f in fs :: fs[f].backing != Some(p)
  }

  predicate Blocked(cfg: Config, answers: Path -> Dependents, p: Path) {
    cfg.hasCompute && answers(p) != Named([])
  }

  predicate AnyBlocked(cfg: Config, answers: Path -> Dependents, locs: seq<Location>) {
    exists i :: 0 <= i < |locs| && Blocked(cfg, answers, locs[i].path)
  }

  datatype Verdict = Invalid | Absent | Refused | Failed | Deleted

  datatype Outcome = Outcome(fs: Files, verdict: Verdict)

  /** Removes the copies in order; a file that is gone already is no failure, any other failure stops. */
  function RemoveAll(fs: Files, locs: seq<Location>, removable: Path -> bool): Outcome {
    if locs == [] then Outcome(fs, Deleted)
    else if locs[0].path in fs && !removable(locs[0].path) then Outcome(fs, Failed)
    else RemoveAll(fs - {locs[0].path}, locs[1..], removable)
  }

  function Delete(cfg: Config, fs: Files, id: string, answers: Path -> Dependents, removable: Path -> bool): Outcome {
    var locs := FindAll(cfg, fs, id);
    if BadId(id) then Outcome(fs, Invalid)
    else if locs == [] then Outcome(fs, Absent)
    else if AnyBlocked(cfg, answers, locs) then Outcome(fs, Refused)
    else RemoveAll(fs, locs, removable)
  }

  function PathsOf(locs: seq<Location>): set<Path> {
    set l | l in locs :: l.path
  }

  lemma {:induction false} RemoveAllEffect(fs: Files, locs: seq<Location>, removable: Path -> bool)
    ensures var r := RemoveAll(fs, locs, removable);
            && (r.verdict == Deleted || r.verdict == Failed)
            && r.fs.Keys <= fs.Keys && (forall p | p in r.fs :: r.fs[p] == fs[p])
            && (forall p | p in fs && p !in PathsOf(locs) :: p in r.fs)
            && (r.verdict == Deleted ==> forall p | p in PathsOf(locs) :: p !in r.fs)
    decreases |locs|
  {
    if locs != [] {
      assert locs == [locs[0]] + locs[1..];
      assert PathsOf(locs) == {locs[0].path} + PathsOf(locs[1..]);
      RemoveAllEffect(fs - {locs[0].path}, locs[1..], removable);
    }
  }

  /** A delete that is refused, or has nothing to do, changes no file. */
  lemma RefusedChangesNothing(cfg: Config, fs: Files, id: string, answers: Path -> Dependents, removable: Path -> bool)
    ensures var r := Delete(cfg, fs, id, answers, removable);
            r.verdict in {Invalid, Absent, Refused} ==> r.fs == fs
  {
    RemoveAllEffect(fs, FindAll(cfg, fs, id), removable);
  }

  /** A successful delete removes every copy and nothing else. */
  lemma DeleteRemovesEveryCopy(cfg: Config, fs: Files, id: string, answers: Path -> Dependents, removable: Path -> bool)
    requires Delete(cfg, fs, id, answers, removable).verdict in {Absent, Deleted}
    ensures var r := Delete(cfg, fs, id, answers, removable);
            r.fs == fs - Copies(cfg, fs, id) && Copies(cfg, r.fs, id) == {}
  {
    var r := Delete(cfg, fs, id, answers, removable);
    RemoveAllEffect(fs, FindAll(cfg, fs, id), removable);
    forall p ensures p !in Copies(cfg, r.fs, id) {
      CopiesExact(cfg, fs, id, p);
      CopiesExact(cfg, r.fs, id, p);
    }
  }

  /** Every overlay whose backing file was there still has it. */
  ghost predicate NobodyOrphaned(fs: Files, fs': Files) {
    forall f | f in fs' && fs'[f].backing.Some? && fs'[f].backing.value in fs :: fs'[f].backing.value in fs'
  }

  /** However it ends, the copies removed are the first few. */
  lemma {:induction false} RemovedPrefix(fs: Files, locs: seq<Location>, removable: Path -> bool) returns (k: nat)
    ensures k <= |locs| && RemoveAll(fs, locs, removable).fs == fs - PathsOf(locs[..k])
    decreases |locs|
  {
    if locs == [] || (locs[0].path in fs && !removable(locs[0].path)) {
      k := 0;
      assert fs - PathsOf(locs[..0]) == fs;
    } else {
      var rest := RemovedPrefix(fs - {locs[0].path}, locs[1..], removable);
      k := rest + 1;
      assert locs[..k] == [locs[0]] + locs[1..][..rest];
      assert PathsOf(locs[..k]) == {locs[0].path} + PathsOf(locs[1..][..rest]);
    }
  }

  /** No overlay outlives its backing file while the copies go in order. */
  ghost predicate OrderSafe(fs: Files, locs: seq<Location>) {
    forall i, f | 0 <= i < |locs| && f in fs && fs[f].backing == Some(locs[i].path) :: f in PathsOf(locs[..i + 1])
  }

  lemma PathsGrow(locs: seq<Location>, j: nat, k: nat)
    requires j <= k <= |locs|
    ensures PathsOf(locs[..j]) <= PathsOf(locs[..k])
  {
    forall p | p in PathsOf(locs[..j]) ensures p in PathsOf(locs[..k]) {
      var l :| l in locs[..j] && l.path == p;
      assert l in locs[..k];
    }
  }

  lemma GoesNoLater(fs: Files, locs: seq<Location>, k: nat, f: Path, p: Path)
    requires OrderSafe(fs, locs) && k <= |locs| && f in fs && fs[f].backing == Some(p) && p in PathsOf(locs[..k])
    ensures f in PathsOf(locs[..k])
  {
    var l :| l in locs[..k] && l.path == p;
    var i :| 0 <= i < k && locs[..k][i] == l;
    PathsGrow(locs, i + 1, k);
    assert fs[f].backing == Some(locs[i].path);
  }

  lemma OrderSafeOrphansNobody(fs: Files, locs: seq<Location>, removable: Path -> bool)
    requires OrderSafe(fs, locs)
    ensures NobodyOrphaned(fs, RemoveAll(fs, locs, removable).fs)
  {
    var k := RemovedPrefix(fs, locs, removable);
    forall f | f in fs && fs[f].backing.Some? && fs[f].backing.value in PathsOf(locs[..k]) ensures f in PathsOf(locs[..k]) {
      GoesNoLater(fs, locs, k, f, fs[f].backing.value);
    }
  }

  /** The file system that lets go of `keep` and of nothing else. */
  function Only(keep: set<Path>): Path -> bool {
    (p: Path) => p in keep
  }

  lemma {:induction false} RemovesOnly(fs: Files, locs: seq<Location>, removable: Path -> bool)
    ensures forall p | p in fs && p !in RemoveAll(fs, locs, removable).fs :: removable(p)
    decreases |locs|
  {
    if locs != [] && (locs[0].path !in fs || removable(locs[0].path)) {
      RemovesOnly(fs - {locs[0].path}, locs[1..], removable);
    }
  }

  lemma {:induction false} RemovesAtLeast(fs: Files, locs: seq<Location>, removable: Path -> bool, k: nat)
    requires k <= |locs| && forall p | p in PathsOf(locs[..k]) :: removable(p)
    ensures forall p | p in PathsOf(locs[..k]) :: p !in RemoveAll(fs, locs, removable).fs
    decreases |locs|
  {
    if k > 0 {
      assert locs[..k] == [locs[0]] + locs[1..][..k - 1];
      assert PathsOf(locs[..k]) == {locs[0].path} + PathsOf(locs[1..][..k - 1]);
      RemovesAtLeast(fs - {locs[0].path}, locs[1..], removable, k - 1);
      RemoveAllEffect(fs - {locs[0].path}, locs[1..], removable);
    }
  }

  lemma RemovesTheFirst(fs: Files, locs: seq<Location>, k: nat, p: Path)
    requires k <= |locs| && p in fs
    ensures p in RemoveAll(fs, locs, Only(PathsOf(locs[..k]))).fs <==> p !in PathsOf(locs[..k])
  {
    RemovesOnly(fs, locs, Only(PathsOf(locs[..k])));
    RemovesAtLeast(fs, locs, Only(PathsOf(locs[..k])), k);
  }

  lemma OutOfOrderOrphans(fs: Files, locs: seq<Location>, i: nat, f: Path)
    requires i < |locs| && f in fs && fs[f].backing == Some(locs[i].path) && f !in PathsOf(locs[..i + 1])
    requires locs[i].path in fs
    ensures !NobodyOrphaned(fs, RemoveAll(fs, locs, Only(PathsOf(locs[..i + 1]))).fs)
  {
    var left := RemoveAll(fs, locs, Only(PathsOf(locs[..i + 1]))).fs;
    assert locs[..i + 1][i] == locs[i];
    RemovesTheFirst(fs, locs, i + 1, f);
    RemovesTheFirst(fs, locs, i + 1, locs[i].path);
    RemoveAllEffect(fs, locs, Only(PathsOf(locs[..i + 1])));
    assert left[f].backing.value in fs && left[f].backing.value !in left;
  }

  lemma FoundIsThere(cfg: Config, fs: Files, id: string)
    ensures forall l | l in FindAll(cfg, fs, id) :: l.path in fs
  {
    forall l | l in FindAll(cfg, fs, id) ensures l.path in fs {
      CopiesExact(cfg, fs, id, l.path);
    }
  }

  /** Exactly when a delete orphans nobody, wherever it may break off: it does not get as far as
      removing, or every file layered on a copy is itself a copy that goes no later. */
  lemma DeleteOrphansExactly(cfg: Config, fs: Files, id: string, answers: Path -> Dependents)
    ensures (forall removable: Path -> bool :: NobodyOrphaned(fs, Delete(cfg, fs, id, answers, removable).fs)) <==>
              (var locs := FindAll(cfg, fs, id);
               BadId(id) || locs == [] || AnyBlocked(cfg, answers, locs) || OrderSafe(fs, locs))
  {
    var locs := FindAll(cfg, fs, id);
    FoundIsThere(cfg, fs, id);
    if !BadId(id) && locs != [] && !AnyBlocked(cfg, answers, locs) {
      if OrderSafe(fs, locs) {
        forall removable: Path -> bool ensures NobodyOrphaned(fs, Delete(cfg, fs, id, answers, removable).fs) {
          OrderSafeOrphansNobody(fs, locs, removable);
        }
      } else {
        var i, f :| 0 <= i < |locs| && f in fs && fs[f].backing == Some(locs[i].path) && f !in PathsOf(locs[..i + 1]);
        OutOfOrderOrphans(fs, locs, i, f);
        var removable := Only(PathsOf(locs[..i + 1]));
        assert !NobodyOrphaned(fs, Delete(cfg, fs, id, answers, removable).fs);
      }
    }
  }

  // ---- the connector's answers ----

  /** The search looks at the files of the pool directories it could list, and at those whose header it
      could read. */
  ghost predicate Finds(fs: Files, dirs: set<string>, readable: Path -> bool, p: Path, f: Path) {
    f in fs && f.dir in dirs && f != p && readable(f) && fs[f].backing == Some(p)
  }

  ghost predicate FindsAny(fs: Files, dirs: set<string>, readable: Path -> bool, p: Path) {
    exists f :: Finds(fs, dirs, readable, p, f)
  }

  /** How the connector answers: with an error where it fails (no qemu-img, an unknown volume), with
      nobody where the volume has no path, and otherwise with what the search finds. */
  ghost predicate Connector(fs: Files, dirs: set<string>, readable: Path -> bool, fails: Path -> bool, pathless: Path -> bool,
                            answers: Path -> Dependents) {
    forall p ::
      if fails(p) then answers(p).Unknown?
      else answers(p).Named? && (answers(p).disks == [] <==> pathless(p) || !FindsAny(fs, dirs, readable, p))
  }

  /** Its answers are honest exactly when, for every file that backs another, it fails, or the volume has
      a path and the search finds one of the files layered on it. */
  lemma HonestExactly(fs: Files, dirs: set<string>, readable: Path -> bool, fails: Path -> bool, pathless: Path -> bool,
                      answers: Path -> Dependents)
    requires Connector(fs, dirs, readable, fails, pathless, answers)
    ensures Honest(fs, answers) <==>
              forall g | g in fs && fs[g].backing.Some? ::
                var p := fs[g].backing.value; fails(p) || (!pathless(p) && FindsAny(fs, dirs, readable, p))
  {
    if Honest(fs, answers) {
      forall g | g in fs && fs[g].backing.Some?
        ensures var p := fs[g].backing.value; fails(p) || (!pathless(p) && FindsAny(fs, dirs, readable, p))
      {
        assert answers(fs[g].backing.value) != Named([]);
      }
    }
  }

  /** What a connector lets be deleted: a delete that may break off anywhere orphans nobody exactly when
      the connector fails on a copy or finds a file layered on one, or nothing is layered on the copies
      but copies that go no later. */
  lemma ConnectorOrphansExactly(cfg: Config, fs: Files, id: string, dirs: set<string>, readable: Path -> bool,
                                fails: Path -> bool, pathless: Path -> bool, answers: Path -> Dependents)
    requires cfg.hasCompute && !BadId(id) && Connector(fs, dirs, readable, fails, pathless, answers)
    ensures (forall removable: Path -> bool :: NobodyOrphaned(fs, Delete(cfg, fs, id, answers, removable).fs)) <==>
              || (exists l :: l in FindAll(cfg, fs, id) && (fails(l.path) || (!pathless(l.path) && FindsAny(fs, dirs, readable, l.path))))
              || OrderSafe(fs, FindAll(cfg, fs, id))
  {
    var locs := FindAll(cfg, fs, id);
    DeleteOrphansExactly(cfg, fs, id, answers);
    forall p ensures answers(p) != Named([]) <==> fails(p) || (!pathless(p) && FindsAny(fs, dirs, readable, p)) {}
    if l :| l in locs && (fails(l.path) || (!pathless(l.path) && FindsAny(fs, dirs, readable, l.path))) {
      var i :| 0 <= i < |locs| && locs[i] == l;
      assert Blocked(cfg, answers, locs[i].path);
    } else {
      forall i | 0 <= i < |locs| ensures !Blocked(cfg, answers, locs[i].path) { assert locs[i] in locs; }
    }
  }

  /** When listing the pools fails no directory is searched: wherever the connector does not fail, the
      guard lets the delete through. */
  lemma UnlistedPoolsUnguarded(cfg: Config, fs: Files, id: string, readable: Path -> bool, fails: Path -> bool, pathless: Path -> bool,
                               answers: Path -> Dependents)
    requires Connector(fs, {}, readable, fails, pathless, answers) && forall l | l in FindAll(cfg, fs, id) :: !fails(l.path)
    ensures !AnyBlocked(cfg, answers, FindAll(cfg, fs, id))
  {
    var locs := FindAll(cfg, fs, id);
    forall i | 0 <= i < |locs| ensures !Blocked(cfg, answers, locs[i].path) {
      assert locs[i] in locs && !FindsAny(fs, {}, readable, locs[i].path);
    }
  }

  /** Whether it succeeds or breaks off half way, a delete leaves no overlay without its backing file,
      when there is a backend to ask and it answers honestly. */
  lemma DeleteOrphansNobody(cfg: Config, fs: Files, id: string, answers: Path -> Dependents, removable: Path -> bool)
    requires cfg.hasCompute && Honest(fs, answers)
    ensures NobodyOrphaned(fs, Delete(cfg, fs, id, answers, removable).fs)
  {
    var locs := FindAll(cfg, fs, id);
    var r := Delete(cfg, fs, id, answers, removable);
    if !BadId(id) && locs != [] && !AnyBlocked(cfg, answers, locs) {
      RemoveAllEffect(fs, locs, removable);
      forall p | p in PathsOf(locs) ensures answers(p) == Named([]) {
        var l :| l in locs && l.path == p;
        var i :| 0 <= i < |locs| && locs[i] == l;
        assert !Blocked(cfg, answers, locs[i].path);
      }
    }
  }

  /** Without a backend the guard lets everything through: a removable legacy image goes, whatever is
      layered on it. */
  lemma UnguardedWithoutBackend(cfg: Config, fs: Files, id: string, answers: Path -> Dependents, removable: Path -> bool, f: Path)
    requires !cfg.hasCompute && !BadId(id) && Listed(fs, LegacyPath(cfg, id)) && removable(LegacyPath(cfg, id))
    requires f in fs && f != LegacyPath(cfg, id) && fs[f].backing == Some(LegacyPath(cfg, id))
    ensures !NobodyOrphaned(fs, Delete(cfg, fs, id, answers, removable).fs)
  {
    var locs := FindAll(cfg, fs, id);
    assert locs == [Location(LegacyPath(cfg, id), "")];
    assert locs[1..] == [] && !AnyBlocked(cfg, answers, locs);
    assert RemoveAll(fs - {LegacyPath(cfg, id)}, [], removable) == Outcome(fs - {LegacyPath(cfg, id)}, Deleted);
    var r := Delete(cfg, fs, id, answers, removable);
    assert r.fs == fs - {LegacyPath(cfg, id)};
    assert f in r.fs && r.fs[f].backing.value in fs && r.fs[f].backing.value !in r.fs;
  }

  // ---- pull ----

  datatype PullVerdict = BadPool | AlreadyCached | CachedElsewhere | NotFetched | Pulled

  function PoolNamed(pools: seq<Pool>, name: string): Option<Pool> {
    if pools == [] then None
    else if pools[0].name == name then Some(pools[0])
    else PoolNamed(pools[1..], name)
  }

  function Resolve(cfg: Config, requested: string): Option<Pool> {
    var pools := BaseImagePools(cfg);
    if pools == [] then None
    else
      var p := PoolNamed(pools, if requested == "" then pools[0].name else requested);
      if p.Some? && p.value.dir.Some? then p else None
  }

  predicate CachedIn(locs: seq<Location>, pool: string) {
    exists i :: 0 <= i < |locs| && locs[i].pool == pool
  }

  /** The guard of a pull. */
  function PullGuard(cfg: Config, fs: Files, id: string, requested: string): PullVerdict {
    var p := Resolve(cfg, requested);
    var locs := FindAll(cfg, fs, id);
    if p.None? then BadPool
    else if locs == [] then Pulled
    else if CachedIn(locs, p.value.name) then AlreadyCached
    else CachedElsewhere
  }

  /** The download's last step: the finished file, if there is one, takes its place in the pool. */
  function Place(cfg: Config, fs: Files, id: string, requested: string, fetched: Option<File>): Files
    requires Resolve(cfg, requested).Some?
  {
    if fetched.None? then fs else fs[Path(Resolve(cfg, requested).value.dir.value, BaseImageName(id)) := fetched.value]
  }

  /** A pull that nothing else overlaps. */
  function Pull(cfg: Config, fs: Files, id: string, requested: string, fetched: Option<File>): (Files, PullVerdict) {
    var v := PullGuard(cfg, fs, id, requested);
    if v != Pulled then (fs, v)
    else (Place(cfg, fs, id, requested, fetched), if fetched.None? then NotFetched else Pulled)
  }

  // ---- at most one copy ----

  datatype Op =
    | PullOp(id: string, requested: string, fetched: Option<File>)
    | DeleteOp(id: string, answers: Path -> Dependents, removable: Path -> bool)

  function Do(cfg: Config, fs: Files, op: Op): Files {
    match op
    case PullOp(id, requested, fetched) => Pull(cfg, fs, id, requested, fetched).0
    case DeleteOp(id, answers, removable) => Delete(cfg, fs, id, answers, removable).fs
  }

  function RunOps(cfg: Config, fs: Files, ops: seq<Op>): Files
    decreases |ops|
  {
    if ops == [] then fs else RunOps(cfg, Do(cfg, fs, ops[0]), ops[1..])
  }

  predicate AtMostOne(cfg: Config, fs: Files, id: string) {
    forall p, q | p in Copies(cfg, fs, id) && q in Copies(cfg, fs, id) :: p == q
  }

  /** The legacy folder is no pool's directory. */
  predicate LegacyApart(cfg: Config) {
    forall p | p in BaseImagePools(cfg) :: p.dir != Some(cfg.legacyDir)
  }

  lemma {:induction false} NamedIsMember(pools: seq<Pool>, name: string)
    ensures PoolNamed(pools, name).Some? ==> PoolNamed(pools, name).value in pools && PoolNamed(pools, name).value.name == name
  {
    if pools != [] { NamedIsMember(pools[1..], name); }
  }

  lemma ResolvedIsEligible(cfg: Config, requested: string)
    requires Resolve(cfg, requested).Some?
    ensures Resolve(cfg, requested).value in BaseImagePools(cfg) && Resolve(cfg, requested).value.dir.Some?
  {
    var pools := BaseImagePools(cfg);
    NamedIsMember(pools, if requested == "" then pools[0].name else requested);
  }

  /** Placing an image adds at most its own path to its copies, and touches no other image's. */
  lemma PlaceCopies(cfg: Config, fs: Files, id: string, requested: string, fetched: Option<File>, other: string, p: Path)
    requires LegacyApart(cfg) && Resolve(cfg, requested).Some?
    requires p in Copies(cfg, Place(cfg, fs, id, requested, fetched), other)
    ensures p in Copies(cfg, fs, other) || (other == id && p == Path(Resolve(cfg, requested).value.dir.value, BaseImageName(id)))
  {
    var fs' := Place(cfg, fs, id, requested, fetched);
    CopiesExact(cfg, fs, other, p);
    CopiesExact(cfg, fs', other, p);
    ResolvedIsEligible(cfg, requested);
    if p == Path(Resolve(cfg, requested).value.dir.value, BaseImageName(id)) {
      assert p != LegacyPath(cfg, other);
      BaseNameInjective(id, other);
    }
  }

  lemma DeleteOnlyRemoves(cfg: Config, fs: Files, id: string, answers: Path -> Dependents, removable: Path -> bool)
    ensures var left := Delete(cfg, fs, id, answers, removable).fs;
            forall p | p in left :: p in fs && left[p] == fs[p]
  {
    RemoveAllEffect(fs, FindAll(cfg, fs, id), removable);
  }

  lemma FewerFiles(cfg: Config, fs: Files, left: Files, id: string, p: Path)
    requires forall q | q in left :: q in fs && left[q] == fs[q]
    requires p in Copies(cfg, left, id)
    ensures p in Copies(cfg, fs, id)
  {
    CopiesExact(cfg, fs, id, p);
    CopiesExact(cfg, left, id, p);
  }

  lemma DeleteShrinks(cfg: Config, fs: Files, id: string, answers: Path -> Dependents, removable: Path -> bool, other: string, p: Path)
    requires p in Copies(cfg, Delete(cfg, fs, id, answers, removable).fs, other)
    ensures p in Copies(cfg, fs, other)
  {
    DeleteOnlyRemoves(cfg, fs, id, answers, removable);
    FewerFiles(cfg, fs, Delete(cfg, fs, id, answers, removable).fs, other, p);
  }

  lemma StepKeepsOne(cfg: Config, fs: Files, op: Op, other: string)
    requires LegacyApart(cfg) && AtMostOne(cfg, fs, other)
    ensures AtMostOne(cfg, Do(cfg, fs, op), other)
  {
    forall p, q | p in Copies(cfg, Do(cfg, fs, op), other) && q in Copies(cfg, Do(cfg, fs, op), other) ensures p == q {
      match op
      case DeleteOp(id, answers, removable) =>
        DeleteShrinks(cfg, fs, id, answers, removable, other, p);
        DeleteShrinks(cfg, fs, id, answers, removable, other, q);
      case PullOp(id, requested, fetched) =>
        if PullGuard(cfg, fs, id, requested) == Pulled {
          assert Copies(cfg, fs, id) == {};
          PlaceCopies(cfg, fs, id, requested, fetched, other, p);
          PlaceCopies(cfg, fs, id, requested, fetched, other, q);
        }
    }
  }

  /** Over any run of pulls and deletes that do not overlap, an image with at most one copy keeps at
      most one. */
  lemma {:induction false} RunKeepsOne(cfg: Config, fs: Files, ops: seq<Op>, id: string)
    requires LegacyApart(cfg) && AtMostOne(cfg, fs, id)
    ensures AtMostOne(cfg, RunOps(cfg, fs, ops), id)
    decreases |ops|
  {
    if ops != [] {
      StepKeepsOne(cfg, fs, ops[0], id);
      RunKeepsOne(cfg, Do(cfg, fs, ops[0]), ops[1..], id);
    }
  }

  /** Two overlapping pulls of an uncached image into pools with different directories leave two copies:
      both guards have passed before either file is in place. */
  lemma OverlappingPullsDuplicate(cfg: Config, fs: Files, id: string, a: string, b: string, fa: File, fb: File)
    requires !BadId(id) && PullGuard(cfg, fs, id, a) == Pulled && PullGuard(cfg, fs, id, b) == Pulled
    requires Resolve(cfg, a).value.dir != Resolve(cfg, b).value.dir
    requires fa.size > MIN_SIZE && !fa.isDir && fb.size > MIN_SIZE && !fb.isDir
    ensures !AtMostOne(cfg, Place(cfg, Place(cfg, fs, id, a, Some(fa)), id, b, Some(fb)), id)
  {
    var fs' := Place(cfg, Place(cfg, fs, id, a, Some(fa)), id, b, Some(fb));
    ResolvedIsEligible(cfg, a);
    ResolvedIsEligible(cfg, b);
    var p := Path(Resolve(cfg, a).value.dir.value, BaseImageName(id));
    var q := Path(Resolve(cfg, b).value.dir.value, BaseImageName(id));
    CopiesExact(cfg, fs', id, p);
    CopiesExact(cfg, fs', id, q);
  }

  // ---- the handlers ----

  class ImageHub {
    const cfg: Config
    var fs: Files

    constructor (cfg: Config, fs: Files)
      ensures this.cfg == cfg && this.fs == fs
    {
      this.cfg, this.fs := cfg, fs;
    }

    method ListPools() returns (out: seq<Pool>)
      ensures out == BaseImagePools(cfg)
    {
      out := [];
      if !cfg.hasCompute || cfg.pools.None? { return; }
      var pools := cfg.pools.value;
      for i := 0 to |pools|
        invariant out == Ordered(pools[..i], cfg.defaultPool)
      {
        assert pools[..i + 1][..i] == pools[..i];
        var p := pools[i];
        if !p.golden { continue; }
        if p.health == Down { continue; }
        if p.name == cfg.defaultPool {
          out := [p] + out;
          continue;
        }
        out := out + [p];
      }
      assert pools[..|pools|] == pools;
    }

    method FindCopies(id: string) returns (out: seq<Location>)
      ensures out == FindAll(cfg, fs, id)
    {
      out := [];
      if BadId(id) { return; }
      var pools := ListPools();
      for i := 0 to |pools|
        invariant out == FindIn(pools[..i], fs, id)
      {
        assert pools[..i + 1][..i] == pools[..i];
        var p := pools[i];
        if p.dir.None? { continue; }
        var cand := Path(p.dir.value, BaseImageName(id));
        if Listed(fs, cand) { out := out + [Location(cand, p.name)]; }
      }
      assert pools[..|pools|] == pools;
      if Listed(fs, LegacyPath(cfg, id)) { out := out + [Location(LegacyPath(cfg, id), "")]; }
    }

    method DeleteBaseCloudImage(id: string, answers: Path -> Dependents, removable: Path -> bool) returns (v: Verdict)
      modifies this
      ensures Outcome(fs, v) == Delete(cfg, old(fs), id, answers, removable)
    {
      if BadId(id) { return Invalid; }
      var locs := FindCopies(id);
      if locs == [] { return Absent; }
      for i := 0 to |locs|
        invariant forall j | 0 <= j < i :: !Blocked(cfg, answers, locs[j].path)
      {
        if Blocked(cfg, answers, locs[i].path) { return Refused; }
      }
      assert !AnyBlocked(cfg, answers, locs);
      assert locs[0..] == locs;
      for i := 0 to |locs|
        invariant RemoveAll(fs, locs[i..], removable) == RemoveAll(old(fs), locs, removable)
      {
        assert locs[i..][1..] == locs[i + 1..];
        if locs[i].path in fs && !removable(locs[i].path) { return Failed; }
        fs := fs - {locs[i].path};
      }
      v := Deleted;
    }

    /** Guard and placement; `fetched` is what the download made of it. */
    method PullBaseCloudImage(id: string, requested: string, fetched: Option<File>) returns (v: PullVerdict)
      modifies this
      ensures (fs, v) == Pull(cfg, old(fs), id, requested, fetched)
    {
      var p := Resolve(cfg, requested);
      if p.None? { return BadPool; }
      var cached := FindCopies(id);
      if |cached| > 0 {
        for i := 0 to |cached|
          invariant forall j | 0 <= j < i :: cached[j].pool != p.value.name
        {
          if cached[i].pool == p.value.name { return AlreadyCached; }
        }
        return CachedElsewhere;
      }
      if fetched.None? { return NotFetched; }
      fs := fs[Path(p.value.dir.value, BaseImageName(id)) := fetched.value];
      return Pulled;
    }
  }
}
