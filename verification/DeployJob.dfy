/** The deploy job in the order the program runs it: straight-line code with early returns over
  mutable files, volumes and domains.  It is proved to be the run of `Deploy.Advance` in which
  nobody else takes a step, and that run is proved to end as it should. */
module DeployJob {
  import opened Deploy
  import opened Paths
  import opened Wrappers

  function Rank(st: Stage): nat {
    match st
    case Start => 15
    case Resolve => 14
    case CheckDomain => 13
    case CheckCandidate(k) => if k < 2 then 12 - k else 10
    case Fetch => 9
    case Place => 8
    case Mark => 7
    case Resize => 6
    case Register => 5
    case Recheck => 4
    case Create => 3
    case Seed => 2
    case Cleanup(_) => 1
    case Ended(_) => 0
  }

  /** The job alone, from a given point to its end. */
  function Solo(cfg: Config, id: nat, job: Job, l: Local, h: Host): (r: (Local, Host))
    ensures r.0.stage.Ended?
    decreases Rank(l.stage)
  {
    if l.stage.Ended? then (l, h)
    else
      var (l', h') := Advance(cfg, id, job, l, h);
      Solo(cfg, id, job, l', h')
  }

  /** What a whole job may do to a host: leave everybody else's files and all domains alone, and
      add at most its own image and its own VM. */
  ghost predicate SoloEffect(cfg: Config, id: nat, job: Job, h: Host, h': Host) {
    && (forall p | p in h.files && h.files[p].writer != Some(id) :: p in h'.files && h'.files[p] == h.files[p])
    && (forall p | p in h'.files && h'.files[p].writer != Some(id) :: p in h.files && h'.files[p] == h.files[p])
    && (forall p | p in h'.files && h'.files[p].writer == Some(id) :: p == Dest(cfg, job))
    && (forall d | d in h.domains :: d in h'.domains && h'.domains[d] == h.domains[d])
    && (forall d | d in h'.domains && d !in h.domains :: d == job.vm && h'.domains[d] == Domain(Dest(cfg, job), Some(id)))
  }

  lemma EffectFirst(cfg: Config, id: nat, job: Job, h: Host, h1: Host, h2: Host)
    requires OnlyOwn(cfg, id, job, h, h1) && SoloEffect(cfg, id, job, h1, h2)
    ensures SoloEffect(cfg, id, job, h, h2)
  {
  }

  lemma OwnFilesAfter(cfg: Config, id: nat, job: Job, h: Host, h': Host, after: bool)
    requires OnlyOwn(cfg, id, job, h, h')
    requires forall p | p in h.files && h.files[p].writer == Some(id) :: p == Dest(cfg, job)
    requires Dest(cfg, job) in h'.files && h'.files[Dest(cfg, job)].writer == Some(id) ==> after
    ensures forall p | p in h'.files && h'.files[p].writer == Some(id) :: p == Dest(cfg, job) && after
  {
  }

  lemma RankDrops(cfg: Config, id: nat, job: Job, l: Local, h: Host)
    requires !l.stage.Ended?
    ensures Rank(Advance(cfg, id, job, l, h).0.stage) < Rank(l.stage)
  {
  }

  lemma SoloStep(cfg: Config, id: nat, job: Job, l: Local, h: Host, l': Local, h': Host)
    requires JobOk(cfg, id, job, l, h) && Safe(cfg, job) && !l.stage.Ended? && (l', h') == Advance(cfg, id, job, l, h)
    requires forall p | p in h.files && h.files[p].writer == Some(id) :: p == Dest(cfg, job) && HasImage(cfg, job, l)
    ensures JobOk(cfg, id, job, l', h') && OnlyOwn(cfg, id, job, h, h') && Rank(l'.stage) < Rank(l.stage)
    ensures forall p | p in h'.files && h'.files[p].writer == Some(id) :: p == Dest(cfg, job) && HasImage(cfg, job, l')
  {
    assert OwnFiles(cfg, id, job, l, h);
    AdvanceOk(cfg, id, job, l, h);
    OwnFilesAfter(cfg, id, job, h, h', HasImage(cfg, job, l'));
    RankDrops(cfg, id, job, l, h);
  }

  /** A job that runs alone leaves the host as it found it, or with one VM over one image, or (when
      its own cleanup failed) with its image: JobOk and HasImage at the end say which. */
  lemma {:induction false} SoloExit(cfg: Config, id: nat, job: Job, l: Local, h: Host)
    requires JobOk(cfg, id, job, l, h) && Safe(cfg, job)
    requires forall p | p in h.files && h.files[p].writer == Some(id) :: p == Dest(cfg, job) && HasImage(cfg, job, l)
    ensures var (l', h') := Solo(cfg, id, job, l, h);
            && JobOk(cfg, id, job, l', h') && SoloEffect(cfg, id, job, h, h')
            && (forall p | p in h'.files && h'.files[p].writer == Some(id) :: p == Dest(cfg, job) && HasImage(cfg, job, l'))
    decreases Rank(l.stage)
  {
    if !l.stage.Ended? {
      var (l', h') := Advance(cfg, id, job, l, h);
      SoloStep(cfg, id, job, l, h, l', h');
      SoloExit(cfg, id, job, l', h');
      EffectFirst(cfg, id, job, h, h', Solo(cfg, id, job, l, h).1);
    }
  }

  predicate Lucky(k: Luck) {
    && k.resolved && k.domainAnswered && k.pathAnswered
    && k.statted && k.volumeAnswered && k.statted2 && k.volumeAnswered2
    && k.fetched && k.placement.Placed? && k.resized && k.refreshed && k.volumeFound && k.registerStatted
    && k.withinQuota && k.createStatted && k.created == Created && k.seeded
  }

  predicate TargetFree(cfg: Config, job: Job, h: Host) {
    && job.vm !in h.domains
    && forall k | 0 <= k < 2 ::
         Path(Dir(cfg, job), DiskCandidates(job.vm)[k]) !in h.files && (job.pool, DiskCandidates(job.vm)[k]) !in h.volumes
  }

  predicate GoodNames(cfg: Config, job: Job) {
    && job.pool in cfg && !BadName(job.vm) && !BadName(job.pool) && !HasDotDot(cfg[job.pool])
    && !HasDotDot(job.vm + ".qcow2") && !HasDotDot(job.vm + ".img")
  }

  lemma CandidateFree(cfg: Config, id: nat, job: Job, k: nat, h: Host)
    requires GoodNames(cfg, job) && Lucky(job.luck) && TargetFree(cfg, job, h) && k < 2
    ensures var h' := CheckOne(cfg, job, k, h).1;
            && Advance(cfg, id, job, Local(CheckCandidate(k), 0), h) == (Local(CheckCandidate(k + 1), 0), h')
            && h'.files == h.files && h'.domains == h.domains && TargetFree(cfg, job, h')
  {
  }

  lemma LuckyChecks(cfg: Config, id: nat, job: Job, h: Host) returns (h': Host)
    requires GoodNames(cfg, job) && Lucky(job.luck) && TargetFree(cfg, job, h)
    ensures h'.files == h.files && h'.domains == h.domains
    ensures Solo(cfg, id, job, Local(CheckCandidate(0), 0), h) == Solo(cfg, id, job, Local(CheckCandidate(2), 0), h')
  {
    var h1 := CheckOne(cfg, job, 0, h).1;
    h' := CheckOne(cfg, job, 1, h1).1;
    CandidateFree(cfg, id, job, 0, h);
    CandidateFree(cfg, id, job, 1, h1);
    Unfold(cfg, id, job, Local(CheckCandidate(0), 0), h);
    Unfold(cfg, id, job, Local(CheckCandidate(1), 0), h1);
  }

  lemma LuckyPreflight(cfg: Config, id: nat, job: Job, h: Host) returns (h': Host)
    requires GoodNames(cfg, job) && Lucky(job.luck) && TargetFree(cfg, job, h)
    ensures h'.files == h.files && h'.domains == h.domains
    ensures Solo(cfg, id, job, Local(Start, 0), h) == Solo(cfg, id, job, Local(Place, 0), h')
  {
    Unfold(cfg, id, job, Local(Start, 0), h);
    Unfold(cfg, id, job, Local(Resolve, 0), h);
    Unfold(cfg, id, job, Local(CheckDomain, 0), h);
    h' := LuckyChecks(cfg, id, job, h);
    Unfold(cfg, id, job, Local(CheckCandidate(2), 0), h');
    Unfold(cfg, id, job, Local(Fetch, 0), h');
  }

  lemma LuckyCreate(cfg: Config, id: nat, job: Job, ino: nat, h: Host)
    requires Lucky(job.luck) && job.vm !in h.domains
    requires Dest(cfg, job) in h.files && (ino == 0 || ino == h.files[Dest(cfg, job)].ino)
    ensures Solo(cfg, id, job, Local(Recheck, ino), h)
            == (Local(Ended(Completed), ino), h.(domains := h.domains[job.vm := Domain(Dest(cfg, job), Some(id))]))
  {
    var h' := h.(domains := h.domains[job.vm := Domain(Dest(cfg, job), Some(id))]);
    Unfold(cfg, id, job, Local(Recheck, ino), h);
    Unfold(cfg, id, job, Local(Create, ino), h);
    Unfold(cfg, id, job, Local(Seed, ino), h');
  }

  lemma LuckyProvision(cfg: Config, id: nat, job: Job, ino: nat, h: Host)
    requires job.pool in cfg && Lucky(job.luck) && job.vm !in h.domains
    requires Dest(cfg, job) in h.files && (ino == 0 || ino == h.files[Dest(cfg, job)].ino)
    ensures var (l', h') := Solo(cfg, id, job, Local(Resize, ino), h);
            && l'.stage == Ended(Completed) && h'.files == h.files
            && h'.domains == h.domains[job.vm := Domain(Dest(cfg, job), Some(id))]
  {
    RefreshLists(h, cfg, job.pool, Dest(cfg, job));
    var h1 := RefreshPool(h, cfg, job.pool, true);
    Unfold(cfg, id, job, Local(Resize, ino), h);
    Unfold(cfg, id, job, Local(Register, ino), h);
    assert Advance(cfg, id, job, Local(Register, ino), h) == (Local(Recheck, ino), h1);
    LuckyCreate(cfg, id, job, ino, h1);
  }

  /** The checks are not so strict that nothing passes: on a free target, with every call answered,
      the job completes with its VM over its image. */
  lemma LuckyDeployCompletes(cfg: Config, id: nat, job: Job, h: Host)
    requires GoodNames(cfg, job) && Lucky(job.luck) && TargetFree(cfg, job, h)
    ensures var (l', h') := Solo(cfg, id, job, Local(Start, 0), h);
            && l'.stage == Ended(Completed)
            && h'.files == h.files[Dest(cfg, job) := File(job.luck.placement.ino, Some(id))]
            && h'.domains == h.domains[job.vm := Domain(Dest(cfg, job), Some(id))]
  {
    var h1 := LuckyPreflight(cfg, id, job, h);
    var h2 := h1.(files := h1.files[Dest(cfg, job) := File(job.luck.placement.ino, Some(id))]);
    var ino := if job.luck.markStatted then job.luck.placement.ino else 0;
    Unfold(cfg, id, job, Local(Place, 0), h1);
    Unfold(cfg, id, job, Local(Mark, 0), h2);
    LuckyProvision(cfg, id, job, ino, h2);
  }

  // ---- what the pre-flight needs in order to see an existing file ----

  ghost predicate Preserves(cfg: Config, id: nat, job: Job, h: Host) {
    var h' := Solo(cfg, id, job, Local(Start, 0), h).1;
    forall p | p in h.files :: p in h'.files && h'.files[p] == h.files[p]
  }

  lemma {:induction false} ForeignFilesAreOld(cfg: Config, id: nat, job: Job, l: Local, h: Host, p: Path)
    requires p in Solo(cfg, id, job, l, h).1.files && Solo(cfg, id, job, l, h).1.files[p].writer != Some(id)
    ensures p in h.files && h.files[p] == Solo(cfg, id, job, l, h).1.files[p]
    decreases Rank(l.stage)
  {
    if !l.stage.Ended? {
      var (l', h') := Advance(cfg, id, job, l, h);
      RankDrops(cfg, id, job, l, h);
      ForeignFilesAreOld(cfg, id, job, l', h', p);
    }
  }

  /** A job on its own has one more way to see a raw target: refreshing the pool for the .qcow2
      candidate lists the .img file as well. */
  predicate SightedAlone(job: Job) {
    Sighted(job) || job.luck.volumeRefreshed
  }

  lemma BlindChecks(cfg: Config, id: nat, job: Job, h: Host) returns (h': Host)
    requires CanPlace(cfg, job) && !SightedAlone(job)
    requires h.files.Keys == {Dest(cfg, job)} && h.volumes == {}
    ensures h'.files == h.files && h'.domains == h.domains
    ensures Solo(cfg, id, job, Local(CheckCandidate(0), 0), h) == Solo(cfg, id, job, Local(CheckCandidate(2), 0), h')
  {
    Unfold(cfg, id, job, Local(CheckCandidate(0), 0), h);
    var h1 := BlindCandidate(cfg, id, job, 0, h);
    Unfold(cfg, id, job, Local(CheckCandidate(1), 0), h1);
    h' := BlindCandidate(cfg, id, job, 1, h1);
  }

  /** What placement makes of the files, when it may touch the target. */
  function PlacedFiles(files: map<Path, File>, id: nat, dest: Path, p: Placement): map<Path, File> {
    match p
    case Placed(ino) => files[dest := File(ino, Some(id))]
    case CopyStuck(ino) => files[dest := File(ino, Some(id))]
    case CopyFailed => files - {dest}
    case NothingWritten => files
  }

  /** When stat fails on an existing target and libvirt neither lists nor refreshes it, the
      pre-flight takes it for free and the placement replaces it, or unlinks it when the copy fails. */
  lemma BlindPreflightOverwrites(cfg: Config, id: nat, job: Job, h: Host) returns (l': Local, h': Host)
    requires CanPlace(cfg, job) && !SightedAlone(job)
    requires h.files.Keys == {Dest(cfg, job)} && h.volumes == {} && h.domains == map[]
    ensures h'.files == PlacedFiles(h.files, id, Dest(cfg, job), job.luck.placement)
    ensures Solo(cfg, id, job, Local(Start, 0), h) == Solo(cfg, id, job, l', h')
    ensures l'.stage in {Mark, Ended(PlaceFailed)}
  {
    Unfold(cfg, id, job, Local(Start, 0), h);
    Unfold(cfg, id, job, Local(Resolve, 0), h);
    Unfold(cfg, id, job, Local(CheckDomain, 0), h);
    var h2 := BlindChecks(cfg, id, job, h);
    Unfold(cfg, id, job, Local(CheckCandidate(2), 0), h2);
    Unfold(cfg, id, job, Local(Fetch, 0), h2);
    Unfold(cfg, id, job, Local(Place, 0), h2);
    var r := Advance(cfg, id, job, Local(Place, 0), h2);
    l', h' := r.0, r.1;
  }

  lemma BlindCandidate(cfg: Config, id: nat, job: Job, k: nat, h: Host) returns (h': Host)
    requires CanPlace(cfg, job) && !SightedAlone(job) && k < 2
    requires h.files.Keys == {Dest(cfg, job)} && (k == 0 || job.raw ==> h.volumes == {})
    requires (job.pool, DiskCandidates(job.vm)[k]) !in h.volumes
    ensures Advance(cfg, id, job, Local(CheckCandidate(k), 0), h) == (Local(CheckCandidate(k + 1), 0), h')
    ensures h'.files == h.files && h'.domains == h.domains && (k == 0 ==> h'.volumes == {})
  {
    var c0, c1 := DiskCandidates(job.vm)[0], DiskCandidates(job.vm)[1];
    assert c0[|c0| - 1] != c1[|c1| - 1];
    assert Answered(job, k);
    h' := CheckOne(cfg, job, k, h).1;
  }

  lemma {:induction false} OtherFilesStay(cfg: Config, id: nat, job: Job, l: Local, h: Host, p: Path)
    requires p in h.files && p != Dest(cfg, job)
    ensures p in Solo(cfg, id, job, l, h).1.files && Solo(cfg, id, job, l, h).1.files[p] == h.files[p]
    decreases Rank(l.stage)
  {
    if !l.stage.Ended? {
      var (l', h') := Advance(cfg, id, job, l, h);
      RankDrops(cfg, id, job, l, h);
      OtherFilesStay(cfg, id, job, l', h', p);
    }
  }

  lemma {:induction false} DotDotOfSuffix(a: string, b: string, c: string)
    requires |b| >= 2 && |c| >= 2 && b[0] == c[0] && !HasDotDot(b) && !HasDotDot(c)
    ensures HasDotDot(a + b) <==> HasDotDot(a + c)
  {
    if a == [] {
      assert a + b == b && a + c == c;
    } else {
      assert (a + b)[1..] == a[1..] + b && (a + c)[1..] == a[1..] + c;
      DotDotOfSuffix(a[1..], b, c);
    }
  }

  lemma {:induction false} NoDots(s: string)
    requires '.' !in s
    ensures !HasDotDot(s)
  {
    if |s| >= 2 {
      assert s[0] in s && s[..2][0] == s[0];
      NoDots(s[1..]);
    }
  }

  /** Either both candidate names are refused or none. */
  lemma CandidatesAlike(vm: string)
    ensures HasDotDot(DiskCandidates(vm)[0]) <==> HasDotDot(DiskCandidates(vm)[1])
  {
    var a, b := ".qcow2", ".img";
    assert a[1..] == "qcow2" && b[1..] == "img";
    NoDots(a[1..]);
    NoDots(b[1..]);
    DotDotOfSuffix(vm, a, b);
  }

  lemma ListedBySibling(cfg: Config, id: nat, job: Job, h: Host)
    requires CanPlace(cfg, job) && job.raw && job.luck.volumeRefreshed
    requires Dest(cfg, job) in h.files
    ensures Solo(cfg, id, job, Local(Start, 0), h).1.files == h.files
  {
    CandidatesAlike(job.vm);
    Unfold(cfg, id, job, Local(Start, 0), h);
    Unfold(cfg, id, job, Local(Resolve, 0), h);
    Unfold(cfg, id, job, Local(CheckDomain, 0), h);
    if job.vm !in h.domains {
      Unfold(cfg, id, job, Local(CheckCandidate(0), 0), h);
      var (stop, h1) := CheckOne(cfg, job, 0, h);
      if stop == None {
        RefreshLists(h, cfg, job.pool, Dest(cfg, job));
        Unfold(cfg, id, job, Local(CheckCandidate(1), 0), h1);
        assert CheckOne(cfg, job, 1, h1).0 == Some(Taken);
      }
    }
  }

  lemma SeenIsKept(cfg: Config, id: nat, job: Job, h: Host)
    requires CanPlace(cfg, job) ==> SightedAlone(job)
    requires Fresh(h)
    ensures Preserves(cfg, id, job, h)
  {
    if Safe(cfg, job) {
      SoloExit(cfg, id, job, Local(Start, 0), h);
    } else {
      forall p | p in h.files && p != Dest(cfg, job) { OtherFilesStay(cfg, id, job, Local(Start, 0), h, p); }
      if Dest(cfg, job) in h.files { ListedBySibling(cfg, id, job, h); }
    }
  }

  lemma UnseenIsLost(cfg: Config, id: nat, job: Job, h: Host)
    requires CanPlace(cfg, job) && !SightedAlone(job)
    requires h == Host(map[Dest(cfg, job) := File(0, None)], {}, map[])
    ensures !Preserves(cfg, id, job, h)
  {
    var l', h' := BlindPreflightOverwrites(cfg, id, job, h);
    var r := Solo(cfg, id, job, l', h').1;
    if Dest(cfg, job) in r.files && r.files[Dest(cfg, job)] == File(0, None) {
      ForeignFilesAreOld(cfg, id, job, l', h', Dest(cfg, job));
      assert false;
    }
  }

  /** Exactly when a job is sure to preserve the files it finds: if it may touch its target at all,
      its pre-flight must be able to see it, by stat or through a refreshed volume list. */
  lemma PreservesExactlyWhenSighted(cfg: Config, id: nat, job: Job)
    ensures (forall h: Host | Fresh(h) :: Preserves(cfg, id, job, h)) <==> (CanPlace(cfg, job) ==> SightedAlone(job))
  {
    if CanPlace(cfg, job) ==> SightedAlone(job) {
      forall h: Host | Fresh(h) ensures Preserves(cfg, id, job, h) { SeenIsKept(cfg, id, job, h); }
    } else {
      var h := Host(map[Dest(cfg, job) := File(0, None)], {}, map[]);
      assert Fresh(h);
      UnseenIsLost(cfg, id, job, h);
    }
  }

  lemma Unfold(cfg: Config, id: nat, job: Job, l: Local, h: Host)
    requires !l.stage.Ended?
    ensures var (l', h') := Advance(cfg, id, job, l, h); Solo(cfg, id, job, l, h) == Solo(cfg, id, job, l', h')
  {
  }

  class DeployHost {
    var files: map<Path, File>
    var volumes: set<(string, string)>
    var domains: map<string, Domain>
    const cfg: Config

    ghost function Abs(): Host
      reads this
    {
      Host(files, volumes, domains)
    }

    constructor (cfg: Config, files: map<Path, File>, volumes: set<(string, string)>, domains: map<string, Domain>)
      ensures this.cfg == cfg && Abs() == Host(files, volumes, domains)
    {
      this.cfg, this.files, this.volumes, this.domains := cfg, files, volumes, domains;
    }

    method Refresh(pool: string, ok: bool)
      modifies this`volumes
      ensures Abs() == RefreshPool(old(Abs()), cfg, pool, ok)
    {
      if ok && pool in cfg {
        var others := set v | v in volumes && v.0 != pool;
        var found := set p | p in files && p.dir == cfg[pool] :: (pool, p.name);
        volumes := others + found;
      }
    }

    method FileInode(p: Path, statted: bool) returns (ino: nat)
      ensures ino == if statted && p in files then files[p].ino else 0
    {
      ino := if statted && p in files then files[p].ino else 0;
    }

    /** verifyDeployTargetFree: stops at the first candidate that is taken or cannot be verified. */
    method VerifyTargetFree(id: nat, job: Job) returns (stop: Option<Outcome>)
      requires job.pool in cfg
      modifies this`volumes
      ensures Solo(cfg, id, job, Local(CheckDomain, 0), old(Abs()))
              == Solo(cfg, id, job, Local(if stop.Some? then Ended(stop.value) else Fetch, 0), Abs())
    {
      ghost var l := Local(CheckDomain, 0);
      Unfold(cfg, id, job, l, Abs());
      if BadName(job.vm) || BadName(job.pool) { return Some(VerifyFailed); }
      if !job.luck.domainAnswered { return Some(VerifyFailed); }
      if job.vm in domains { return Some(Taken); }
      if !job.luck.pathAnswered { return Some(VerifyFailed); }
      var poolPath := cfg[job.pool];
      if HasDotDot(poolPath) { return Some(VerifyFailed); }
      var k := 0;
      var cands := DiskCandidates(job.vm);
      while k < |cands|
        invariant 0 <= k <= |cands| == 2 && cands == DiskCandidates(job.vm)
        invariant files == old(files) && domains == old(domains)
        invariant Solo(cfg, id, job, l, old(Abs())) == Solo(cfg, id, job, Local(CheckCandidate(k), 0), Abs())
      {
        Unfold(cfg, id, job, Local(CheckCandidate(k), 0), Abs());
        var target := Path(poolPath, cands[k]);
        if !HasDotDot(cands[k]) {
          if (if k == 0 then job.luck.statted else job.luck.statted2) && target in files { return Some(Taken); }
          if !(if k == 0 then job.luck.volumeAnswered else job.luck.volumeAnswered2) { return Some(VerifyFailed); }
          if (job.pool, cands[k]) in volumes { return Some(Taken); }
          Refresh(job.pool, if k == 0 then job.luck.volumeRefreshed else job.luck.volumeRefreshed2);
          if (job.pool, cands[k]) in volumes { return Some(Taken); }
        }
        k := k + 1;
      }
      Unfold(cfg, id, job, Local(CheckCandidate(2), 0), Abs());
      return None;
    }

    /** moveFile onto the pool */
    method MoveFile(id: nat, dest: Path, placement: Placement) returns (ok: bool)
      modifies this`files
      ensures ok <==> !HasDotDot(dest.dir) && !HasDotDot(dest.name) && placement.Placed?
      ensures files == if HasDotDot(dest.dir) || HasDotDot(dest.name) then old(files)
                       else PlacedFiles(old(files), id, dest, placement)
    {
      if HasDotDot(dest.dir) || HasDotDot(dest.name) { return false; }
      match placement
      case Placed(ino) => files := files[dest := File(ino, Some(id))]; return true;
      case NothingWritten => return false;
      case CopyFailed => files := files - {dest}; return false;
      case CopyStuck(ino) => files := files[dest := File(ino, Some(id))]; return false;
    }

    method AssertStillOurs(dest: Path, ino: nat, statted: bool) returns (ours: bool)
      ensures ours <==> ino == 0 || (statted && dest in files && files[dest].ino == ino)
    {
      if ino == 0 { return true; }
      var cur := FileInode(dest, statted);
      return cur == ino;
    }

    method RemovePoolImage(job: Job, dest: Path, ino: nat)
      requires dest == Dest(cfg, job)
      modifies this`files, this`volumes
      ensures forall st :: Abs() == RemoveImage(cfg, job, Local(st, ino), old(Abs()))
    {
      if HasDotDot(dest.dir) || HasDotDot(dest.name) { return; }
      var cur := FileInode(dest, job.luck.cleanupStatted);
      if ino != 0 && cur != ino { return; }
      if job.luck.removed { files := files - {dest}; }
      Refresh(job.pool, job.luck.cleanupRefreshed);
    }

    /** Everything after the image was placed and its inode recorded. */
    method Provision(id: nat, job: Job, dest: Path, ino: nat) returns (o: Outcome)
      requires dest == Dest(cfg, job)
      modifies this
      ensures Solo(cfg, id, job, Local(Resize, ino), old(Abs())) == Solo(cfg, id, job, Local(Ended(o), ino), Abs())
    {
      Unfold(cfg, id, job, Local(Resize, ino), Abs());
      if !job.luck.resized {
        o := CleanUp(id, job, dest, ino, ResizeFailed);
      } else {
        o := RegisterAndCheck(id, job, dest, ino);
      }
    }

    /** updateJob(error) and removePoolImage on the way out */
    method CleanUp(id: nat, job: Job, dest: Path, ino: nat, why: Outcome) returns (o: Outcome)
      requires dest == Dest(cfg, job)
      modifies this`files, this`volumes
      ensures o == why
      ensures Solo(cfg, id, job, Local(Cleanup(why), ino), old(Abs())) == Solo(cfg, id, job, Local(Ended(why), ino), Abs())
    {
      Unfold(cfg, id, job, Local(Cleanup(why), ino), Abs());
      RemovePoolImage(job, dest, ino);
      return why;
    }

    method RegisterAndCheck(id: nat, job: Job, dest: Path, ino: nat) returns (o: Outcome)
      requires dest == Dest(cfg, job)
      modifies this
      ensures Solo(cfg, id, job, Local(Register, ino), old(Abs())) == Solo(cfg, id, job, Local(Ended(o), ino), Abs())
    {
      Unfold(cfg, id, job, Local(Register, ino), Abs());
      Refresh(job.pool, job.luck.refreshed);
      if !(job.luck.volumeFound && (job.pool, dest.name) in volumes) {
        o := CleanUp(id, job, dest, ino, NotRegistered);
        return;
      }
      var ours := AssertStillOurs(dest, ino, job.luck.registerStatted);
      if !ours { return Replaced; }
      Unfold(cfg, id, job, Local(Recheck, ino), Abs());
      if job.owner != "" && !job.luck.withinQuota {
        o := CleanUp(id, job, dest, ino, OverQuota);
        return;
      }
      o := CreateAndSeed(id, job, dest, ino);
    }

    method CreateAndSeed(id: nat, job: Job, dest: Path, ino: nat) returns (o: Outcome)
      requires dest == Dest(cfg, job)
      modifies this
      ensures Solo(cfg, id, job, Local(Create, ino), old(Abs())) == Solo(cfg, id, job, Local(Ended(o), ino), Abs())
    {
      Unfold(cfg, id, job, Local(Create, ino), Abs());
      var ours := AssertStillOurs(dest, ino, job.luck.createStatted);
      if !ours { return Replaced; }
      if job.luck.created.NotCreated? || job.vm in domains {
        o := CleanUp(id, job, dest, ino, CreateFailed);
        return;
      }
      domains := domains[job.vm := Domain(dest, Some(id))];
      if job.luck.created.DefinedThenFailed? {
        o := CleanUp(id, job, dest, ino, CreateFailed);
        return;
      }
      Unfold(cfg, id, job, Local(Seed, ino), Abs());
      if job.seed && !job.luck.seeded { return SeedFailed; }
      return Completed;
    }

    /** Move the validated image into the pool, record its inode, and go on from there. */
    method PlaceAndProvision(id: nat, job: Job) returns (o: Outcome)
      requires job.pool in cfg
      modifies this
      ensures var (l, h) := Solo(cfg, id, job, Local(Place, 0), old(Abs())); l.stage == Ended(o) && h == Abs()
    {
      var dest := Path(cfg[job.pool], job.vm + (if job.raw then ".img" else ".qcow2"));
      Unfold(cfg, id, job, Local(Place, 0), Abs());
      var moved := MoveFile(id, dest, job.luck.placement);
      if !moved { return PlaceFailed; }
      Unfold(cfg, id, job, Local(Mark, 0), Abs());
      var poolIno := FileInode(dest, job.luck.markStatted);
      o := Provision(id, job, dest, poolIno);
    }

    /** deployApplianceJob, between acquiring and releasing its lock */
    method DeployApplianceJob(id: nat, job: Job) returns (o: Outcome)
      modifies this
      ensures var (l, h) := Solo(cfg, id, job, Local(Start, 0), old(Abs())); l.stage == Ended(o) && h == Abs()
    {
      Unfold(cfg, id, job, Local(Start, 0), Abs());
      Unfold(cfg, id, job, Local(Resolve, 0), Abs());
      if !job.luck.resolved || job.pool !in cfg { return PoolUnresolved; }
      var stop := VerifyTargetFree(id, job);
      if stop.Some? { return stop.value; }
      Unfold(cfg, id, job, Local(Fetch, 0), Abs());
      if !job.luck.fetched { return FetchFailed; }
      o := PlaceAndProvision(id, job);
    }
  }
}
