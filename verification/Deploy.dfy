/** The appliance deploy job (`deployApplianceJob`) as one job among many.

  Every call that can fail for reasons outside the program (libvirt, stat, rename, qemu-img,
  download) takes its answer from the job's `Luck`, which the results below quantify over.  One
  `Advance` is one atomic effect of the job; `Sys` interleaves the effects of any number of jobs
  with the steps of the deploy lock and with an environment that also writes files and domains.
*/
module Deploy {
  import opened Paths
  import opened Wrappers
  import L = DeployLock

  /** `writer` records which job wrote the entry; None is anybody else. */
  datatype File = File(ino: nat, writer: Option<nat>)
  datatype Domain = Domain(disk: Path, writer: Option<nat>)

  /** `volumes` is libvirt's own list of (pool, file name), which may lag behind the files. */
  datatype Host = Host(files: map<Path, File>, volumes: set<(string, string)>, domains: map<string, Domain>)

  /** Outcome of moveFile: renamed or copied; nothing touched; a failed copy, unlinked again; or a
      failed copy whose unlink, an error of which is ignored, failed as well. */
  datatype Placement = Placed(ino: nat) | NothingWritten | CopyFailed | CopyStuck(ino: nat)

  /** Outcome of CreateDomain: it may report an error and leave the domain defined. */
  datatype Creation = Created | NotCreated | DefinedThenFailed

  datatype Luck = Luck(
    resolved: bool, domainAnswered: bool, pathAnswered: bool,
    statted: bool, volumeAnswered: bool, volumeRefreshed: bool,     // candidate .qcow2
    statted2: bool, volumeAnswered2: bool, volumeRefreshed2: bool,  // candidate .img
    fetched: bool, placement: Placement, markStatted: bool, resized: bool,
    refreshed: bool, volumeFound: bool, registerStatted: bool, withinQuota: bool,
    createStatted: bool, created: Creation, seeded: bool,
    cleanupStatted: bool, removed: bool, cleanupRefreshed: bool)

  datatype Job = Job(vm: string, pool: string, raw: bool, owner: string, seed: bool, luck: Luck)

  datatype Outcome =
    | PoolUnresolved | VerifyFailed | Taken | FetchFailed | PlaceFailed
    | ResizeFailed | NotRegistered | OverQuota | CreateFailed  // these clean up
    | Replaced                                                 // target is no longer ours: conserved
    | SeedFailed | Completed                                   // the VM exists

  datatype Stage =
    | Start | Resolve | CheckDomain | CheckCandidate(k: nat) | Fetch | Place | Mark
    | Resize | Register | Recheck | Create | Seed | Cleanup(why: Outcome) | Ended(o: Outcome)

  /** `ino` is the recorded inode of the placed file; 0 when it could not be read. */
  datatype Local = Local(stage: Stage, ino: nat)

  type Config = map<string, string>  // pool name -> directory

  // ---- names ----

  predicate BadName(s: string) {
    '/' in s || '\\' in s || HasDotDot(s)
  }

  function DiskCandidates(vm: string): seq<string> {
    [vm + ".qcow2", vm + ".img"]
  }

  function DiskIndex(job: Job): nat { if job.raw then 1 else 0 }

  function Dir(cfg: Config, job: Job): string {
    if job.pool in cfg then cfg[job.pool] else ""
  }

  function Dest(cfg: Config, job: Job): Path {
    Path(Dir(cfg, job), DiskCandidates(job.vm)[DiskIndex(job)])
  }

  /** Distinct VM names share no candidate file name, whatever the formats. */
  lemma CandidatesDisjoint(vm1: string, vm2: string, i: nat, j: nat)
    requires i < 2 && j < 2 && DiskCandidates(vm1)[i] == DiskCandidates(vm2)[j]
    ensures vm1 == vm2 && i == j
  {
    var c1, c2 := DiskCandidates(vm1)[i], DiskCandidates(vm2)[j];
    assert c1[|c1| - 1] == if i == 0 then '2' else 'g';
    assert c2[|c2| - 1] == if j == 0 then '2' else 'g';
    assert c1[..|vm1|] == vm1 && c2[..|vm2|] == vm2;
  }

  // ---- one atomic effect ----

  function Listed(h: Host, cfg: Config, pool: string): set<(string, string)> {
    if pool in cfg
    then (set v | v in h.volumes && v.0 != pool) + (set p | p in h.files && p.dir == cfg[pool] :: (pool, p.name))
    else h.volumes
  }

  function RefreshPool(h: Host, cfg: Config, pool: string, ok: bool): Host {
    if ok then h.(volumes := Listed(h, cfg, pool)) else h
  }

  /** verifyDeployTargetFree for one candidate: stat first, then libvirt, which may refresh its list. */
  function CheckOne(cfg: Config, job: Job, k: nat, h: Host): (Option<Outcome>, Host)
    requires k < 2
  {
    var cand := DiskCandidates(job.vm)[k];
    var target := Path(Dir(cfg, job), cand);
    var statted := if k == 0 then job.luck.statted else job.luck.statted2;
    var answered := if k == 0 then job.luck.volumeAnswered else job.luck.volumeAnswered2;
    var refreshed := if k == 0 then job.luck.volumeRefreshed else job.luck.volumeRefreshed2;
    if HasDotDot(cand) then (None, h)  // skipped: such a target is refused at placement
    else if statted && target in h.files then (Some(Taken), h)
    else if !answered then (Some(VerifyFailed), h)
    else if (job.pool, cand) in h.volumes then (Some(Taken), h)
    else
      var h' := RefreshPool(h, cfg, job.pool, refreshed);
      (if (job.pool, cand) in h'.volumes then Some(Taken) else None, h')
  }

  function StillOurs(cfg: Config, job: Job, l: Local, h: Host, statted: bool): bool {
    l.ino == 0 || (statted && Dest(cfg, job) in h.files && h.files[Dest(cfg, job)].ino == l.ino)
  }

  /** removePoolImage */
  function RemoveImage(cfg: Config, job: Job, l: Local, h: Host): Host {
    var dest := Dest(cfg, job);
    if HasDotDot(dest.dir) || HasDotDot(dest.name) then h
    else if !StillOurs(cfg, job, l, h, job.luck.cleanupStatted) then h
    else RefreshPool(if job.luck.removed then h.(files := h.files - {dest}) else h, cfg, job.pool, job.luck.cleanupRefreshed)
  }

  function Advance(cfg: Config, id: nat, job: Job, l: Local, h: Host): (Local, Host) {
    var dest := Dest(cfg, job);
    match l.stage
    case Start => (Local(Resolve, 0), h)
    case Resolve =>
      (Local(if job.luck.resolved && job.pool in cfg then CheckDomain else Ended(PoolUnresolved), 0), h)
    case CheckDomain =>
      var next :=
        if BadName(job.vm) || BadName(job.pool) || !job.luck.domainAnswered then Ended(VerifyFailed)
        else if job.vm in h.domains then Ended(Taken)
        else if !job.luck.pathAnswered || HasDotDot(dest.dir) then Ended(VerifyFailed)
        else CheckCandidate(0);
      (Local(next, 0), h)
    case CheckCandidate(k) =>
      if k >= 2 then (Local(Fetch, 0), h)
      else
        var (stop, h') := CheckOne(cfg, job, k, h);
        (Local(if stop.Some? then Ended(stop.value) else CheckCandidate(k + 1), 0), h')
    case Fetch =>
      (Local(if job.luck.fetched then Place else Ended(FetchFailed), 0), h)
    case Place =>
      if HasDotDot(dest.dir) || HasDotDot(dest.name) then (Local(Ended(PlaceFailed), 0), h)
      else (match job.luck.placement
            case Placed(ino) => (Local(Mark, 0), h.(files := h.files[dest := File(ino, Some(id))]))
            case NothingWritten => (Local(Ended(PlaceFailed), 0), h)
            case CopyFailed => (Local(Ended(PlaceFailed), 0), h.(files := h.files - {dest}))
            case CopyStuck(ino) => (Local(Ended(PlaceFailed), 0), h.(files := h.files[dest := File(ino, Some(id))])))
    case Mark =>
      (Local(Resize, if job.luck.markStatted && dest in h.files then h.files[dest].ino else 0), h)
    case Resize =>
      (l.(stage := if job.luck.resized then Register else Cleanup(ResizeFailed)), h)
    case Register =>
      var h' := RefreshPool(h, cfg, job.pool, job.luck.refreshed);
      var next :=
        if !(job.luck.volumeFound && (job.pool, dest.name) in h'.volumes) then Cleanup(NotRegistered)
        else if !StillOurs(cfg, job, l, h', job.luck.registerStatted) then Ended(Replaced)
        else Recheck;
      (l.(stage := next), h')
    case Recheck =>
      (l.(stage := if job.owner == "" || job.luck.withinQuota then Create else Cleanup(OverQuota)), h)
    case Create =>
      if !StillOurs(cfg, job, l, h, job.luck.createStatted) then (l.(stage := Ended(Replaced)), h)
      else if job.luck.created.NotCreated? || job.vm in h.domains then (l.(stage := Cleanup(CreateFailed)), h)
      else
        (l.(stage := if job.luck.created.Created? then Seed else Cleanup(CreateFailed)),
         h.(domains := h.domains[job.vm := Domain(dest, Some(id))]))
    case Seed =>
      (l.(stage := Ended(if job.seed && !job.luck.seeded then SeedFailed else Completed)), h)
    case Cleanup(why) =>
      (l.(stage := Ended(why)), RemoveImage(cfg, job, l, h))
    case Ended(_) => (l, h)
  }

  // ---- guards that hold against any environment ----

  /** One effect unlinks no file but one with inode `ino`, writes none, and defines a VM only over
      a file with that inode. */
  ghost predicate Guarded(cfg: Config, job: Job, ino: nat, h: Host, h': Host) {
    && (forall p :: p in h.files && p !in h'.files ==> h.files[p].ino == ino && p == Dest(cfg, job))
    && (forall p :: p in h'.files ==> p in h.files && h'.files[p] == h.files[p])
    && (forall d :: d in h.domains ==> d in h'.domains && h'.domains[d] == h.domains[d])
    && (forall d :: d in h'.domains && d !in h.domains ==>
          h'.domains[d].disk in h.files && h.files[h'.domains[d].disk].ino == ino)
  }

  predicate Marked(l: Local) {
    l.ino != 0 && (l.stage in {Resize, Register, Recheck, Create, Seed} || l.stage.Cleanup? || l.stage.Ended?)
  }

  lemma InodeGuard(cfg: Config, id: nat, job: Job, l: Local, h: Host)
    requires Marked(l)
    ensures var (l', h') := Advance(cfg, id, job, l, h);
            Guarded(cfg, job, l.ino, h, h') && l'.ino == l.ino && Marked(l')
  {
  }

  /** The job's own state after `n` effects, when before its i-th effect it finds the host in state
      `seen[i]`: any interference at all, by anybody, between any two effects. */
  ghost function LocalAfter(cfg: Config, id: nat, job: Job, seen: seq<Host>, n: nat): Local
    requires n <= |seen|
  {
    if n == 0 then Local(Start, 0)
    else Advance(cfg, id, job, LocalAfter(cfg, id, job, seen, n - 1), seen[n - 1]).0
  }

  /** Under arbitrary interference: once an inode has been recorded, no later effect of the job
      unlinks a file with another inode or defines a VM over one. */
  lemma {:induction false} GuardedForever(cfg: Config, id: nat, job: Job, seen: seq<Host>, m: nat, k: nat)
    requires m <= k < |seen| && Marked(LocalAfter(cfg, id, job, seen, m))
    ensures Marked(LocalAfter(cfg, id, job, seen, k))
    ensures LocalAfter(cfg, id, job, seen, k).ino == LocalAfter(cfg, id, job, seen, m).ino
    ensures Guarded(cfg, job, LocalAfter(cfg, id, job, seen, m).ino, seen[k],
                    Advance(cfg, id, job, LocalAfter(cfg, id, job, seen, k), seen[k]).1)
  {
    if m < k {
      GuardedForever(cfg, id, job, seen, m, k - 1);
      InodeGuard(cfg, id, job, LocalAfter(cfg, id, job, seen, k - 1), seen[k - 1]);
    }
    InodeGuard(cfg, id, job, LocalAfter(cfg, id, job, seen, k), seen[k]);
  }

  // ---- the system ----

  datatype Sys = Sys(locks: L.State, host: Host, locals: seq<Local>)

  datatype Action = Locking(a: L.Action) | Work(j: nat) | Environment(h: Host)

  ghost predicate InFlight(s: Sys, j: nat)
    requires j < |s.locks.threads|
  {
    s.locks.threads[j].Holding?
  }

  ghost predicate SameTarget(cfg: Config, job: Job, h: Host, h': Host) {
    && (job.vm in h.domains <==> job.vm in h'.domains)
    && (job.vm in h.domains ==> h'.domains[job.vm] == h.domains[job.vm])
    && (Dest(cfg, job) in h.files <==> Dest(cfg, job) in h'.files)
    && (Dest(cfg, job) in h.files ==> h'.files[Dest(cfg, job)] == h.files[Dest(cfg, job)])
  }

  /** The environment may do anything except touch the target of a job that holds its lock. */
  ghost predicate Respectful(cfg: Config, jobs: seq<Job>, s: Sys, h: Host)
    requires |s.locks.threads| == |jobs|
  {
    && (forall j | 0 <= j < |jobs| && InFlight(s, j) :: SameTarget(cfg, jobs[j], s.host, h))
    && (forall p | p in h.files :: h.files[p].writer.None? || (p in s.host.files && s.host.files[p] == h.files[p]))
    && (forall d | d in h.domains :: h.domains[d].writer.None? || (d in s.host.domains && s.host.domains[d] == h.domains[d]))
  }

  ghost predicate Shaped(jobs: seq<Job>, s: Sys) {
    |s.locks.threads| == |s.locals| == |jobs|
  }

  ghost predicate Enabled(cfg: Config, jobs: seq<Job>, s: Sys, a: Action) {
    && Shaped(jobs, s)
    && match a
       case Locking(la) =>
         && L.Enabled(s.locks, la)
         && (la.Register? ==> s.locals[la.t].stage.Start? && la.name == jobs[la.t].vm)
         && (la.Trim? ==> s.locals[la.t].stage.Ended?)
       case Work(j) =>
         j < |jobs| && InFlight(s, j) && !s.locals[j].stage.Start? && !s.locals[j].stage.Ended?
       case Environment(h) => Respectful(cfg, jobs, s, h)
  }

  ghost function Step(cfg: Config, jobs: seq<Job>, s: Sys, a: Action): Sys
    requires Enabled(cfg, jobs, s, a)
  {
    match a
    case Locking(la) =>
      s.(locks := L.Step(s.locks, la),
         locals := if la.Lock? then s.locals[la.t := Local(Resolve, 0)] else s.locals)
    case Work(j) =>
      var (l, h) := Advance(cfg, j, jobs[j], s.locals[j], s.host);
      s.(host := h, locals := s.locals[j := l])
    case Environment(h) => s.(host := h)
  }

  ghost predicate IsRun(cfg: Config, jobs: seq<Job>, s: Sys, acts: seq<Action>, s': Sys)
    decreases |acts|
  {
    if acts == [] then s == s'
    else Enabled(cfg, jobs, s, acts[0]) && IsRun(cfg, jobs, Step(cfg, jobs, s, acts[0]), acts[1..], s')
  }

  ghost function Init(jobs: seq<Job>, h: Host): Sys {
    Sys(L.Init(|jobs|), h, seq(|jobs|, _ => Local(Start, 0)))
  }

  /** Nothing on the host was written by one of these jobs yet. */
  ghost predicate Fresh(h: Host) {
    && (forall p | p in h.files :: h.files[p].writer.None?)
    && (forall d | d in h.domains :: h.domains[d].writer.None?)
  }

  // ---- invariant ----

  predicate PostPlace(st: Stage) {
    st.Mark? || st.Resize? || st.Register? || st.Recheck? || st.Create? || st.Seed? || st.Cleanup?
  }

  predicate CleansUp(o: Outcome) {
    o.ResizeFailed? || o.NotRegistered? || o.OverQuota? || o.CreateFailed?
  }

  predicate DestRefused(cfg: Config, job: Job) {
    HasDotDot(Dest(cfg, job).dir) || HasDotDot(Dest(cfg, job).name)
  }

  /** Whether a job that ended leaves its image in the pool: it made a VM, its own unlink or stat
      failed, or a failing stat made it take its own file for somebody else's. */
  predicate LeavesImage(cfg: Config, job: Job, l: Local)
    requires l.stage.Ended?
  {
    || l.stage.o.SeedFailed? || l.stage.o.Completed? || l.stage.o.Replaced?
    || (CleansUp(l.stage.o) && (!job.luck.removed || (l.ino != 0 && !job.luck.cleanupStatted)))
    || (l.stage.o.PlaceFailed? && job.luck.placement.CopyStuck? && !DestRefused(cfg, job))
  }

  predicate HasImage(cfg: Config, job: Job, l: Local) {
    PostPlace(l.stage) || (l.stage.Ended? && LeavesImage(cfg, job, l))
  }

  /** The job's VM exists: it was created, or its creation failed after defining it. */
  predicate HasVM(job: Job, l: Local) {
    || l.stage.Seed?
    || (l.stage.Ended? && (l.stage.o.SeedFailed? || l.stage.o.Completed?))
    || (job.luck.created.DefinedThenFailed?
        && ((l.stage.Cleanup? && l.stage.why.CreateFailed?) || (l.stage.Ended? && l.stage.o.CreateFailed?)))
  }

  /** The pre-flight can see an existing target file: stat works, or libvirt's list is refreshed. */
  predicate Sighted(job: Job) {
    if job.raw then job.luck.statted2 || job.luck.volumeRefreshed2 else job.luck.statted || job.luck.volumeRefreshed
  }

  /** libvirt answers for the candidate, or the candidate is skipped. */
  predicate Answered(job: Job, k: nat)
    requires k < 2
  {
    HasDotDot(DiskCandidates(job.vm)[k]) || if k == 0 then job.luck.volumeAnswered else job.luck.volumeAnswered2
  }

  /** How far a job has come. */
  function Depth(st: Stage): nat {
    match st
    case Start => 0
    case Resolve => 1
    case CheckDomain => 2
    case CheckCandidate(k) => if k < 2 then 3 + k else 5
    case Fetch => 6
    case Place => 7
    case Ended(o) => if CleansUp(o) || o.Replaced? || o.SeedFailed? || o.Completed? then 8 else 0
    case _ => 8
  }

  /** What having come that far says of the job's luck. */
  predicate Passed(cfg: Config, job: Job, d: nat) {
    && (d >= 2 ==> job.luck.resolved && job.pool in cfg)
    && (d >= 3 ==> !BadName(job.vm) && !BadName(job.pool) && job.luck.domainAnswered && job.luck.pathAnswered
                   && !HasDotDot(Dir(cfg, job)))
    && (d >= 4 ==> Answered(job, 0))
    && (d >= 5 ==> Answered(job, 1))
    && (d >= 7 ==> job.luck.fetched)
    && (d >= 8 ==> job.luck.placement.Placed? && !DestRefused(cfg, job))
  }

  /** Nothing but an occupied target keeps the job from touching it. */
  predicate CanPlace(cfg: Config, job: Job) {
    Passed(cfg, job, 7) && !job.luck.placement.NothingWritten? && !DestRefused(cfg, job)
  }

  /** A job that may touch its target sees what is there first. */
  predicate Safe(cfg: Config, job: Job) {
    CanPlace(cfg, job) ==> Sighted(job)
  }

  predicate DestChecked(job: Job, st: Stage) {
    st.Fetch? || st.Place? || (st.CheckCandidate? && st.k > DiskIndex(job))
  }

  predicate DomainChecked(st: Stage) {
    || st.CheckCandidate? || st.Fetch? || st.Place? || st.Mark? || st.Resize? || st.Register? || st.Recheck? || st.Create? || st.Cleanup?
  }

  /** What holds of the target and the domain name of a job that holds its lock; `can` says whether
      the job may touch its target. */
  ghost predicate Owns(cfg: Config, id: nat, job: Job, l: Local, h: Host, can: bool) {
    var dest := Dest(cfg, job);
    && (l.stage.Cleanup? ==> CleansUp(l.stage.why))
    && (DomainChecked(l.stage) && !HasVM(job, l) ==> job.vm !in h.domains)
    && (DestChecked(job, l.stage) && can ==> dest !in h.files)
    && (HasImage(cfg, job, l) ==>
          && (job.luck.placement.Placed? || job.luck.placement.CopyStuck?)
          && dest in h.files && h.files[dest] == File(job.luck.placement.ino, Some(id))
          && (l.ino == 0 || l.ino == job.luck.placement.ino))
    && (l.stage.Ended? && CleansUp(l.stage.o) && !LeavesImage(cfg, job, l) ==> dest !in h.files)
    && (HasVM(job, l) ==> job.vm in h.domains && h.domains[job.vm] == Domain(dest, Some(id)))
  }

  /** What a job may rely on while it holds its lock. */
  ghost predicate JobOk(cfg: Config, id: nat, job: Job, l: Local, h: Host) {
    Passed(cfg, job, Depth(l.stage)) && Owns(cfg, id, job, l, h, CanPlace(cfg, job))
  }

  /** Every entry a job wrote is its own target, and the job is at a point where it may own it. */
  ghost predicate Provenance(cfg: Config, jobs: seq<Job>, s: Sys)
    requires Shaped(jobs, s)
  {
    && (forall p | p in s.host.files && s.host.files[p].writer.Some? ::
          var j := s.host.files[p].writer.value;
          j < |jobs| && p == Dest(cfg, jobs[j]) && HasImage(cfg, jobs[j], s.locals[j]))
    && (forall d | d in s.host.domains && s.host.domains[d].writer.Some? ::
          var j := s.host.domains[d].writer.value;
          j < |jobs| && d == jobs[j].vm && HasVM(jobs[j], s.locals[j]))
  }

  ghost predicate PhaseOk(job: Job, l: Local, p: L.Pc) {
    && (!p.Idle? ==> p.name == job.vm)
    && (l.stage.Start? <==> (p.Waiting? || (p.Idle? && !l.stage.Ended?)))
    && (!l.stage.Start? && !l.stage.Ended? ==> p.Holding?)
  }

  ghost predicate Inv(cfg: Config, jobs: seq<Job>, s: Sys) {
    && Shaped(jobs, s) && L.Inv(s.locks)
    && (forall j | 0 <= j < |jobs| :: PhaseOk(jobs[j], s.locals[j], s.locks.threads[j]))
    && (forall j | 0 <= j < |jobs| && InFlight(s, j) :: JobOk(cfg, j, jobs[j], s.locals[j], s.host))
    && Provenance(cfg, jobs, s)
  }

  // ---- each step keeps it ----

  /** What one effect of job `id` may change on the host: it rewrites nothing; what it adds is its
      own target; what it removes is a file it wrote itself. */
  ghost predicate OnlyOwn(cfg: Config, id: nat, job: Job, h: Host, h': Host) {
    && (forall p | p in h.files && p in h'.files :: h'.files[p] == h.files[p])
    && (forall p | p in h'.files && p !in h.files :: p == Dest(cfg, job) && h'.files[p].writer == Some(id))
    && (forall p | p in h.files && p !in h'.files :: p == Dest(cfg, job) && h.files[p].writer == Some(id))
    && (forall d | d in h.domains :: d in h'.domains && h'.domains[d] == h.domains[d])
    && (forall d | d in h'.domains && d !in h.domains :: d == job.vm && h'.domains[d] == Domain(Dest(cfg, job), Some(id)))
  }

  lemma RefreshLists(h: Host, cfg: Config, pool: string, p: Path)
    requires pool in cfg && p.dir == cfg[pool] && p in h.files
    ensures (pool, p.name) in RefreshPool(h, cfg, pool, true).volumes
  {
  }

  lemma CheckOneOk(cfg: Config, job: Job, k: nat, h: Host)
    requires k < 2 && job.pool in cfg
    ensures var (stop, h') := CheckOne(cfg, job, k, h);
            && h'.files == h.files && h'.domains == h.domains
            && (stop == None ==> Answered(job, k))
            && (stop == None && k == DiskIndex(job) && Sighted(job) ==> DestRefused(cfg, job) || Dest(cfg, job) !in h.files)
            && (stop.Some? ==> stop.value in {Taken, VerifyFailed})
  {
    var target := Path(Dir(cfg, job), DiskCandidates(job.vm)[k]);
    if target in h.files { RefreshLists(h, cfg, job.pool, target); }
  }

  /** The effect on what the job owns: only its own target changes, and a job that writes has what it wrote. */
  ghost predicate OwnsMore(cfg: Config, id: nat, job: Job, l: Local, h: Host, l': Local, h': Host, can: bool) {
    && Owns(cfg, id, job, l', h', can) && OnlyOwn(cfg, id, job, h, h')
    && (Dest(cfg, job) in h'.files && h'.files[Dest(cfg, job)].writer == Some(id) ==> HasImage(cfg, job, l'))
    && (HasVM(job, l) ==> HasVM(job, l'))
    && (job.vm in h'.domains && job.vm !in h.domains ==> HasVM(job, l'))
  }

  ghost predicate AdvancedOk(cfg: Config, id: nat, job: Job, l: Local, h: Host, l': Local, h': Host) {
    Passed(cfg, job, Depth(l'.stage)) && OwnsMore(cfg, id, job, l, h, l', h', CanPlace(cfg, job))
  }

  /** Each effect goes one stage on only when its calls were answered. */
  lemma AdvancePasses(cfg: Config, id: nat, job: Job, l: Local, h: Host)
    requires Passed(cfg, job, Depth(l.stage)) && !l.stage.Ended? && (l.stage.Cleanup? ==> CleansUp(l.stage.why))
    ensures Passed(cfg, job, Depth(Advance(cfg, id, job, l, h).0.stage))
  {
    if l.stage.CheckCandidate? && l.stage.k < 2 { CheckOneOk(cfg, job, l.stage.k, h); }
  }

  ghost predicate OwnFiles(cfg: Config, id: nat, job: Job, l: Local, h: Host) {
    forall p | p in h.files && h.files[p].writer == Some(id) :: HasImage(cfg, job, l)
  }

  /** Before anything was placed, an effect that leaves files and domains alone. */
  lemma OwnsEarly(cfg: Config, id: nat, job: Job, l: Local, h: Host, l': Local, h': Host, can: bool)
    requires Owns(cfg, id, job, l, h, can) && OwnFiles(cfg, id, job, l, h) && !HasImage(cfg, job, l) && !HasVM(job, l)
    requires h'.files == h.files && h'.domains == h.domains && !HasImage(cfg, job, l') && !HasVM(job, l')
    requires !l'.stage.Cleanup? && !(l'.stage.Ended? && CleansUp(l'.stage.o))
    requires DomainChecked(l'.stage) ==> job.vm !in h.domains
    requires DestChecked(job, l'.stage) && can ==> Dest(cfg, job) !in h.files
    ensures OwnsMore(cfg, id, job, l, h, l', h', can)
  {
  }

  lemma OwnsBeforePlacing(cfg: Config, id: nat, job: Job, l: Local, h: Host, can: bool)
    requires Owns(cfg, id, job, l, h, can) && OwnFiles(cfg, id, job, l, h)
    requires l.stage.Start? || l.stage.Resolve? || l.stage.CheckDomain?
    ensures var (l', h') := Advance(cfg, id, job, l, h); OwnsMore(cfg, id, job, l, h, l', h', can)
  {
    var r := Advance(cfg, id, job, l, h);
    OwnsEarly(cfg, id, job, l, h, r.0, r.1, can);
  }

  lemma OwnsFetching(cfg: Config, id: nat, job: Job, l: Local, h: Host, can: bool)
    requires Owns(cfg, id, job, l, h, can) && OwnFiles(cfg, id, job, l, h) && l.stage.Fetch?
    ensures var (l', h') := Advance(cfg, id, job, l, h); OwnsMore(cfg, id, job, l, h, l', h', can)
  {
  }

  lemma OwnsChecking(cfg: Config, id: nat, job: Job, l: Local, h: Host, can: bool)
    requires Owns(cfg, id, job, l, h, can) && OwnFiles(cfg, id, job, l, h)
    requires l.stage.CheckCandidate? && job.pool in cfg && (can ==> Sighted(job) && !DestRefused(cfg, job))
    ensures var (l', h') := Advance(cfg, id, job, l, h); OwnsMore(cfg, id, job, l, h, l', h', can)
  {
    if l.stage.k < 2 { CheckOneOk(cfg, job, l.stage.k, h); }
  }

  /** The image is in place, or stuck there. */
  lemma OwnsPlaced(cfg: Config, id: nat, job: Job, l: Local, h: Host, l': Local, ino: nat, can: bool)
    requires Owns(cfg, id, job, l, h, can) && OwnFiles(cfg, id, job, l, h) && l.stage.Place? && can && !DestRefused(cfg, job)
    requires (l' == Local(Mark, 0) && job.luck.placement == Placed(ino))
             || (l' == Local(Ended(PlaceFailed), 0) && job.luck.placement == CopyStuck(ino))
    ensures OwnsMore(cfg, id, job, l, h, l', h.(files := h.files[Dest(cfg, job) := File(ino, Some(id))]), can)
  {
  }

  lemma OwnsCopyFailed(cfg: Config, id: nat, job: Job, l: Local, h: Host, can: bool)
    requires Owns(cfg, id, job, l, h, can) && OwnFiles(cfg, id, job, l, h) && l.stage.Place? && can
    requires job.luck.placement.CopyFailed?
    ensures OwnsMore(cfg, id, job, l, h, Local(Ended(PlaceFailed), 0), h.(files := h.files - {Dest(cfg, job)}), can)
  {
    assert h.files - {Dest(cfg, job)} == h.files;
    OwnsEarly(cfg, id, job, l, h, Local(Ended(PlaceFailed), 0), h.(files := h.files - {Dest(cfg, job)}), can);
  }

  lemma OwnsPlacing(cfg: Config, id: nat, job: Job, l: Local, h: Host, can: bool)
    requires Owns(cfg, id, job, l, h, can) && OwnFiles(cfg, id, job, l, h) && l.stage.Place?
    requires !DestRefused(cfg, job) && !job.luck.placement.NothingWritten? ==> can
    ensures var (l', h') := Advance(cfg, id, job, l, h); OwnsMore(cfg, id, job, l, h, l', h', can)
  {
    if DestRefused(cfg, job) || job.luck.placement.NothingWritten? {
      OwnsEarly(cfg, id, job, l, h, Local(Ended(PlaceFailed), 0), h, can);
    } else if job.luck.placement.CopyFailed? {
      OwnsCopyFailed(cfg, id, job, l, h, can);
    } else if job.luck.placement.Placed? {
      OwnsPlaced(cfg, id, job, l, h, Local(Mark, 0), job.luck.placement.ino, can);
    } else {
      OwnsPlaced(cfg, id, job, l, h, Local(Ended(PlaceFailed), 0), job.luck.placement.ino, can);
    }
  }

  lemma OwnsCreating(cfg: Config, id: nat, job: Job, l: Local, h: Host, can: bool)
    requires Owns(cfg, id, job, l, h, can) && OwnFiles(cfg, id, job, l, h) && l.stage.Create?
    ensures var (l', h') := Advance(cfg, id, job, l, h); OwnsMore(cfg, id, job, l, h, l', h', can)
  {
  }

  lemma OwnsMarking(cfg: Config, id: nat, job: Job, l: Local, h: Host, can: bool)
    requires Owns(cfg, id, job, l, h, can) && OwnFiles(cfg, id, job, l, h) && (l.stage.Mark? || l.stage.Seed?)
    ensures var (l', h') := Advance(cfg, id, job, l, h); OwnsMore(cfg, id, job, l, h, l', h', can)
  {
  }

  lemma OwnsRegistering(cfg: Config, id: nat, job: Job, l: Local, h: Host, can: bool)
    requires Owns(cfg, id, job, l, h, can) && OwnFiles(cfg, id, job, l, h) && l.stage.Register?
    ensures var (l', h') := Advance(cfg, id, job, l, h); OwnsMore(cfg, id, job, l, h, l', h', can)
  {
  }

  lemma OwnsGrowing(cfg: Config, id: nat, job: Job, l: Local, h: Host, can: bool)
    requires Owns(cfg, id, job, l, h, can) && OwnFiles(cfg, id, job, l, h) && (l.stage.Resize? || l.stage.Recheck?)
    ensures var (l', h') := Advance(cfg, id, job, l, h); OwnsMore(cfg, id, job, l, h, l', h', can)
  {
  }

  /** What cleaning up does, beside the stage. */
  lemma OwnsCleaned(cfg: Config, id: nat, job: Job, l: Local, h: Host, l': Local, h': Host, can: bool)
    requires Owns(cfg, id, job, l, h, can) && OwnFiles(cfg, id, job, l, h) && l.stage.Cleanup? && !DestRefused(cfg, job)
    requires l' == l.(stage := Ended(l.stage.why)) && h' == RemoveImage(cfg, job, l, h)
    ensures OwnsMore(cfg, id, job, l, h, l', h', can)
  {
  }

  lemma CleaningAdvance(cfg: Config, id: nat, job: Job, l: Local, h: Host)
    requires l.stage.Cleanup?
    ensures Advance(cfg, id, job, l, h) == (l.(stage := Ended(l.stage.why)), RemoveImage(cfg, job, l, h))
  {
  }

  lemma OwnsCleaning(cfg: Config, id: nat, job: Job, l: Local, h: Host, can: bool)
    requires Owns(cfg, id, job, l, h, can) && OwnFiles(cfg, id, job, l, h) && l.stage.Cleanup? && !DestRefused(cfg, job)
    ensures var (l', h') := Advance(cfg, id, job, l, h); OwnsMore(cfg, id, job, l, h, l', h', can)
  {
    CleaningAdvance(cfg, id, job, l, h);
    OwnsCleaned(cfg, id, job, l, h, l.(stage := Ended(l.stage.why)), RemoveImage(cfg, job, l, h), can);
  }

  /** A job that may rely on JobOk keeps it, and changes nothing but its own target. */
  lemma AdvanceOk(cfg: Config, id: nat, job: Job, l: Local, h: Host)
    requires JobOk(cfg, id, job, l, h) && Safe(cfg, job) && !l.stage.Ended? && OwnFiles(cfg, id, job, l, h)
    ensures var (l', h') := Advance(cfg, id, job, l, h); AdvancedOk(cfg, id, job, l, h, l', h')
  {
    var can := CanPlace(cfg, job);
    AdvancePasses(cfg, id, job, l, h);
    match l.stage {
      case CheckCandidate(_) => OwnsChecking(cfg, id, job, l, h, can);
      case Fetch => OwnsFetching(cfg, id, job, l, h, can);
      case Place => OwnsPlacing(cfg, id, job, l, h, can);
      case Mark => OwnsMarking(cfg, id, job, l, h, can);
      case Create => OwnsCreating(cfg, id, job, l, h, can);
      case Seed => OwnsMarking(cfg, id, job, l, h, can);
      case Cleanup(_) => OwnsCleaning(cfg, id, job, l, h, can);
      case Resize => OwnsGrowing(cfg, id, job, l, h, can);
      case Register => OwnsRegistering(cfg, id, job, l, h, can);
      case Recheck => OwnsGrowing(cfg, id, job, l, h, can);
      case _ => OwnsBeforePlacing(cfg, id, job, l, h, can);
    }
  }

  lemma JobOkFrame(cfg: Config, id: nat, job: Job, l: Local, h: Host, h': Host)
    requires JobOk(cfg, id, job, l, h) && SameTarget(cfg, job, h, h')
    ensures JobOk(cfg, id, job, l, h')
  {
  }

  /** An effect of one job leaves the target of every job with another name alone. */
  lemma OthersFrame(cfg: Config, id: nat, job: Job, other: Job, h: Host, h': Host)
    requires OnlyOwn(cfg, id, job, h, h') && other.vm != job.vm
    ensures SameTarget(cfg, other, h, h')
  {
    if Dest(cfg, other) == Dest(cfg, job) {
      CandidatesDisjoint(other.vm, job.vm, DiskIndex(other), DiskIndex(job));
      assert false;
    }
  }

  lemma WorkKeepsJobs(cfg: Config, jobs: seq<Job>, s: Sys, j: nat, i: nat)
    requires Inv(cfg, jobs, s) && Enabled(cfg, jobs, s, Work(j)) && i < |jobs| && i != j && InFlight(s, i)
    requires OnlyOwn(cfg, j, jobs[j], s.host, Step(cfg, jobs, s, Work(j)).host)
    ensures JobOk(cfg, i, jobs[i], s.locals[i], Step(cfg, jobs, s, Work(j)).host)
  {
    var h' := Step(cfg, jobs, s, Work(j)).host;
    L.InvImpliesExclusive(s.locks);
    assert PhaseOk(jobs[i], s.locals[i], s.locks.threads[i]) && PhaseOk(jobs[j], s.locals[j], s.locks.threads[j]);
    OthersFrame(cfg, j, jobs[j], jobs[i], s.host, h');
    JobOkFrame(cfg, i, jobs[i], s.locals[i], s.host, h');
  }

  lemma WorkKeepsProvenance(cfg: Config, jobs: seq<Job>, s: Sys, j: nat)
    requires Inv(cfg, jobs, s) && Enabled(cfg, jobs, s, Work(j))
    requires var s' := Step(cfg, jobs, s, Work(j));
             AdvancedOk(cfg, j, jobs[j], s.locals[j], s.host, s'.locals[j], s'.host)
    ensures Provenance(cfg, jobs, Step(cfg, jobs, s, Work(j)))
  {
  }

  lemma WorkAdvances(cfg: Config, jobs: seq<Job>, s: Sys, j: nat)
    requires Inv(cfg, jobs, s) && Enabled(cfg, jobs, s, Work(j)) && Safe(cfg, jobs[j])
    ensures var s' := Step(cfg, jobs, s, Work(j)); AdvancedOk(cfg, j, jobs[j], s.locals[j], s.host, s'.locals[j], s'.host)
  {
    assert OwnFiles(cfg, j, jobs[j], s.locals[j], s.host);
    AdvanceOk(cfg, j, jobs[j], s.locals[j], s.host);
  }

  lemma WorkKeepsPhases(cfg: Config, jobs: seq<Job>, s: Sys, j: nat, i: nat)
    requires Inv(cfg, jobs, s) && Enabled(cfg, jobs, s, Work(j)) && i < |jobs|
    ensures var s' := Step(cfg, jobs, s, Work(j));
            s'.locks == s.locks && PhaseOk(jobs[i], s'.locals[i], s'.locks.threads[i]) && (i != j ==> s'.locals[i] == s.locals[i])
  {
    assert PhaseOk(jobs[i], s.locals[i], s.locks.threads[i]);
  }

  lemma WorkKeepsInv(cfg: Config, jobs: seq<Job>, s: Sys, j: nat)
    requires Inv(cfg, jobs, s) && Enabled(cfg, jobs, s, Work(j)) && Safe(cfg, jobs[j])
    ensures Inv(cfg, jobs, Step(cfg, jobs, s, Work(j)))
    ensures OnlyOwn(cfg, j, jobs[j], s.host, Step(cfg, jobs, s, Work(j)).host)
  {
    var s' := Step(cfg, jobs, s, Work(j));
    WorkAdvances(cfg, jobs, s, j);
    WorkKeepsProvenance(cfg, jobs, s, j);
    forall i | 0 <= i < |jobs| ensures PhaseOk(jobs[i], s'.locals[i], s'.locks.threads[i])
      ensures InFlight(s', i) ==> JobOk(cfg, i, jobs[i], s'.locals[i], s'.host)
    {
      WorkKeepsPhases(cfg, jobs, s, j, i);
      if i != j && InFlight(s, i) { WorkKeepsJobs(cfg, jobs, s, j, i); }
    }
  }

  lemma LockingKeepsPhases(cfg: Config, jobs: seq<Job>, s: Sys, la: L.Action)
    requires Inv(cfg, jobs, s) && Enabled(cfg, jobs, s, Locking(la))
    ensures var s' := Step(cfg, jobs, s, Locking(la));
            Shaped(jobs, s') && forall j | 0 <= j < |jobs| :: PhaseOk(jobs[j], s'.locals[j], s'.locks.threads[j])
  {
    var s' := Step(cfg, jobs, s, Locking(la));
    forall j | 0 <= j < |jobs| ensures PhaseOk(jobs[j], s'.locals[j], s'.locks.threads[j]) {
      assert PhaseOk(jobs[j], s.locals[j], s.locks.threads[j]);
    }
  }

  lemma LockingKeepsProvenance(cfg: Config, jobs: seq<Job>, s: Sys, la: L.Action)
    requires Inv(cfg, jobs, s) && Enabled(cfg, jobs, s, Locking(la))
    requires Shaped(jobs, Step(cfg, jobs, s, Locking(la)))
    ensures Provenance(cfg, jobs, Step(cfg, jobs, s, Locking(la)))
  {
    var s' := Step(cfg, jobs, s, Locking(la));
    forall j | 0 <= j < |jobs| ensures (HasImage(cfg, jobs[j], s.locals[j]) ==> HasImage(cfg, jobs[j], s'.locals[j]))
        && (HasVM(jobs[j], s.locals[j]) ==> HasVM(jobs[j], s'.locals[j])) {
      assert PhaseOk(jobs[j], s.locals[j], s.locks.threads[j]);
    }
  }

  lemma LockingKeepsInv(cfg: Config, jobs: seq<Job>, s: Sys, la: L.Action)
    requires Inv(cfg, jobs, s) && Enabled(cfg, jobs, s, Locking(la))
    ensures Inv(cfg, jobs, Step(cfg, jobs, s, Locking(la)))
  {
    L.StepKeepsInv(s.locks, la);
    LockingKeepsPhases(cfg, jobs, s, la);
    LockingKeepsProvenance(cfg, jobs, s, la);
    var s' := Step(cfg, jobs, s, Locking(la));
    forall j | 0 <= j < |jobs| && InFlight(s', j) ensures JobOk(cfg, j, jobs[j], s'.locals[j], s'.host) {
      if j != la.t { assert InFlight(s, j); }
    }
  }

  lemma EnvironmentKeepsInv(cfg: Config, jobs: seq<Job>, s: Sys, h: Host)
    requires Inv(cfg, jobs, s) && Enabled(cfg, jobs, s, Environment(h))
    ensures Inv(cfg, jobs, s.(host := h))
  {
    forall j | 0 <= j < |jobs| && InFlight(s, j) ensures JobOk(cfg, j, jobs[j], s.locals[j], h) {
      JobOkFrame(cfg, j, jobs[j], s.locals[j], s.host, h);
    }
  }

  lemma StepKeepsInv(cfg: Config, jobs: seq<Job>, s: Sys, a: Action)
    requires Inv(cfg, jobs, s) && Enabled(cfg, jobs, s, a) && forall j | 0 <= j < |jobs| :: Safe(cfg, jobs[j])
    ensures Inv(cfg, jobs, Step(cfg, jobs, s, a))
  {
    match a
    case Locking(la) => LockingKeepsInv(cfg, jobs, s, la);
    case Work(j) => WorkKeepsInv(cfg, jobs, s, j);
    case Environment(h) => EnvironmentKeepsInv(cfg, jobs, s, h);
  }
}
