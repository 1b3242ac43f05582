/** Runs of the deploy system: safety in every interleaving, what each job leaves behind, and
  conservation when only deploys write. */
module DeployRuns {
  import opened Deploy
  import opened Paths
  import opened Wrappers

  lemma {:induction false} RunKeepsInv(cfg: Config, jobs: seq<Job>, s: Sys, acts: seq<Action>, s': Sys)
    requires Inv(cfg, jobs, s) && IsRun(cfg, jobs, s, acts, s') && forall j | 0 <= j < |jobs| :: Safe(cfg, jobs[j])
    ensures Inv(cfg, jobs, s')
    decreases |acts|
  {
    if acts != [] {
      StepKeepsInv(cfg, jobs, s, acts[0]);
      RunKeepsInv(cfg, jobs, Step(cfg, jobs, s, acts[0]), acts[1..], s');
    }
  }

  lemma InitInv(cfg: Config, jobs: seq<Job>, h: Host)
    requires Fresh(h)
    ensures Inv(cfg, jobs, Init(jobs, h))
  {
    L.InitInv(|jobs|);
  }

  // ---- main results ----

  ghost predicate AllSafe(cfg: Config, jobs: seq<Job>) {
    forall j | 0 <= j < |jobs| :: Safe(cfg, jobs[j])
  }

  /** Safety: in every reachable state of any interleaving, whatever an effect of a job does to the
      host, no file or domain of anybody else is changed, and none at all is overwritten. */
  lemma NeverOverwrites(cfg: Config, jobs: seq<Job>, h: Host, acts: seq<Action>, s: Sys, j: nat)
    requires Fresh(h) && AllSafe(cfg, jobs) && IsRun(cfg, jobs, Init(jobs, h), acts, s)
    requires Enabled(cfg, jobs, s, Work(j))
    ensures OnlyOwn(cfg, j, jobs[j], s.host, Step(cfg, jobs, s, Work(j)).host)
  {
    InitInv(cfg, jobs, h);
    RunKeepsInv(cfg, jobs, Init(jobs, h), acts, s);
    WorkKeepsInv(cfg, jobs, s, j);
  }

  // ---- the condition is exact ----

  ghost predicate Reachable(cfg: Config, jobs: seq<Job>, h: Host, s: Sys) {
    exists acts :: IsRun(cfg, jobs, Init(jobs, h), acts, s)
  }

  lemma {:induction false} RunExtends(cfg: Config, jobs: seq<Job>, s: Sys, acts: seq<Action>, s1: Sys, a: Action)
    requires IsRun(cfg, jobs, s, acts, s1) && Enabled(cfg, jobs, s1, a)
    ensures IsRun(cfg, jobs, s, acts + [a], Step(cfg, jobs, s1, a))
    decreases |acts|
  {
    if acts == [] {
      assert ([] + [a])[1..] == [];
    } else {
      RunExtends(cfg, jobs, Step(cfg, jobs, s, acts[0]), acts[1..], s1, a);
      assert (acts + [a])[1..] == acts[1..] + [a];
    }
  }

  lemma ReachStep(cfg: Config, jobs: seq<Job>, h: Host, s: Sys, a: Action)
    requires Reachable(cfg, jobs, h, s) && Enabled(cfg, jobs, s, a)
    ensures Reachable(cfg, jobs, h, Step(cfg, jobs, s, a))
  {
    var acts :| IsRun(cfg, jobs, Init(jobs, h), acts, s);
    RunExtends(cfg, jobs, Init(jobs, h), acts, s, a);
  }

  /** A host that holds nothing but somebody else's file where the job will write, and no list of it. */
  ghost function Occupied(cfg: Config, job: Job): Host {
    Host(map[Dest(cfg, job) := File(0, None)], {}, map[])
  }

  /** Job `j` alone under its lock, at a given point. */
  ghost function Alone(jobs: seq<Job>, j: nat, l: Local, h: Host): Sys
    requires j < |jobs|
  {
    Sys(L.State(map[jobs[j].vm := 0], [L.Entry(1, Some(j))], seq(|jobs|, _ => L.Idle)[j := L.Holding(jobs[j].vm, 0)]),
        h, seq(|jobs|, _ => Local(Start, 0))[j := l])
  }

  lemma ReachAlone(cfg: Config, jobs: seq<Job>, j: nat, h: Host)
    requires j < |jobs|
    ensures Reachable(cfg, jobs, h, Alone(jobs, j, Local(Resolve, 0), h))
  {
    var s0 := Init(jobs, h);
    assert IsRun(cfg, jobs, s0, [], s0);
    var name := jobs[j].vm;
    ReachStep(cfg, jobs, h, s0, Locking(L.Register(j, name)));
    var s1 := Step(cfg, jobs, s0, Locking(L.Register(j, name)));
    assert s1.locks == L.State(map[name := 0], [L.Entry(1, None)], seq(|jobs|, _ => L.Idle)[j := L.Waiting(name, 0)]);
    ReachStep(cfg, jobs, h, s1, Locking(L.Lock(j)));
    var s2 := Step(cfg, jobs, s1, Locking(L.Lock(j)));
    assert s2.locks == Alone(jobs, j, Local(Resolve, 0), h).locks;
    assert s2 == Alone(jobs, j, Local(Resolve, 0), h);
  }

  lemma ReachWork(cfg: Config, jobs: seq<Job>, h0: Host, j: nat, l: Local, h: Host)
    requires j < |jobs| && Reachable(cfg, jobs, h0, Alone(jobs, j, l, h)) && !l.stage.Start? && !l.stage.Ended?
    ensures var (l', h') := Advance(cfg, j, jobs[j], l, h); Reachable(cfg, jobs, h0, Alone(jobs, j, l', h'))
  {
    var s := Alone(jobs, j, l, h);
    ReachStep(cfg, jobs, h0, s, Work(j));
    var (l', h') := Advance(cfg, j, jobs[j], l, h);
    assert s.locals[j := l'] == Alone(jobs, j, l', h').locals;
    assert Step(cfg, jobs, s, Work(j)) == Alone(jobs, j, l', h');
  }

  /** The environment may drop libvirt's volume list. */
  lemma ReachForget(cfg: Config, jobs: seq<Job>, h0: Host, j: nat, l: Local, h: Host)
    requires j < |jobs| && Reachable(cfg, jobs, h0, Alone(jobs, j, l, h))
    ensures Reachable(cfg, jobs, h0, Alone(jobs, j, l, h.(volumes := {})))
  {
    ReachStep(cfg, jobs, h0, Alone(jobs, j, l, h), Environment(h.(volumes := {})));
  }

  lemma BlindCheck(cfg: Config, id: nat, job: Job, k: nat)
    requires CanPlace(cfg, job) && !Sighted(job) && k < 2
    ensures var (l', h') := Advance(cfg, id, job, Local(CheckCandidate(k), 0), Occupied(cfg, job));
            l' == Local(CheckCandidate(k + 1), 0) && h'.(volumes := {}) == Occupied(cfg, job)
  {
    var c0, c1 := DiskCandidates(job.vm)[0], DiskCandidates(job.vm)[1];
    assert c0[|c0| - 1] != c1[|c1| - 1];
    assert Answered(job, k);
  }

  lemma ReachBlindCheck(cfg: Config, jobs: seq<Job>, j: nat, k: nat)
    requires j < |jobs| && CanPlace(cfg, jobs[j]) && !Sighted(jobs[j]) && k < 2
    requires var h := Occupied(cfg, jobs[j]); Reachable(cfg, jobs, h, Alone(jobs, j, Local(CheckCandidate(k), 0), h))
    ensures var h := Occupied(cfg, jobs[j]); Reachable(cfg, jobs, h, Alone(jobs, j, Local(CheckCandidate(k + 1), 0), h))
  {
    var h := Occupied(cfg, jobs[j]);
    BlindCheck(cfg, j, jobs[j], k);
    ReachWork(cfg, jobs, h, j, Local(CheckCandidate(k), 0), h);
    var (l', h') := Advance(cfg, j, jobs[j], Local(CheckCandidate(k), 0), h);
    ReachForget(cfg, jobs, h, j, l', h');
  }

  lemma ReachChecks(cfg: Config, jobs: seq<Job>, j: nat)
    requires j < |jobs| && CanPlace(cfg, jobs[j])
    ensures var h := Occupied(cfg, jobs[j]); Reachable(cfg, jobs, h, Alone(jobs, j, Local(CheckCandidate(0), 0), h))
  {
    var h := Occupied(cfg, jobs[j]);
    ReachAlone(cfg, jobs, j, h);
    ReachWork(cfg, jobs, h, j, Local(Resolve, 0), h);
    assert Advance(cfg, j, jobs[j], Local(Resolve, 0), h) == (Local(CheckDomain, 0), h);
    ReachWork(cfg, jobs, h, j, Local(CheckDomain, 0), h);
  }

  lemma ReachFetched(cfg: Config, jobs: seq<Job>, h: Host, j: nat)
    requires j < |jobs| && CanPlace(cfg, jobs[j])
    requires Reachable(cfg, jobs, h, Alone(jobs, j, Local(CheckCandidate(2), 0), h))
    ensures Reachable(cfg, jobs, h, Alone(jobs, j, Local(Place, 0), h))
  {
    ReachWork(cfg, jobs, h, j, Local(CheckCandidate(2), 0), h);
    assert Advance(cfg, j, jobs[j], Local(CheckCandidate(2), 0), h) == (Local(Fetch, 0), h);
    ReachWork(cfg, jobs, h, j, Local(Fetch, 0), h);
    assert Advance(cfg, j, jobs[j], Local(Fetch, 0), h) == (Local(Place, 0), h);
  }

  lemma ReachPlacing(cfg: Config, jobs: seq<Job>, j: nat)
    requires j < |jobs| && CanPlace(cfg, jobs[j]) && !Sighted(jobs[j])
    ensures var h := Occupied(cfg, jobs[j]); Reachable(cfg, jobs, h, Alone(jobs, j, Local(Place, 0), h))
  {
    ReachChecks(cfg, jobs, j);
    ReachBlindCheck(cfg, jobs, j, 0);
    ReachBlindCheck(cfg, jobs, j, 1);
    ReachFetched(cfg, jobs, Occupied(cfg, jobs[j]), j);
  }

  lemma BlindPlacingOverwrites(cfg: Config, id: nat, job: Job)
    requires CanPlace(cfg, job)
    ensures !OnlyOwn(cfg, id, job, Occupied(cfg, job), Advance(cfg, id, job, Local(Place, 0), Occupied(cfg, job)).1)
  {
    assert Dest(cfg, job) in Occupied(cfg, job).files;
  }

  /** No effect of a job, in any reachable state of any run from a host the jobs have not written to,
      touches anything but the job's own target. */
  ghost predicate Harmless(cfg: Config, jobs: seq<Job>) {
    forall h, s, j: nat | Fresh(h) && Reachable(cfg, jobs, h, s) && Enabled(cfg, jobs, s, Work(j)) ::
      OnlyOwn(cfg, j, jobs[j], s.host, Step(cfg, jobs, s, Work(j)).host)
  }

  lemma UnsafeJobHarms(cfg: Config, jobs: seq<Job>, j: nat)
    requires j < |jobs| && !Safe(cfg, jobs[j])
    ensures !Harmless(cfg, jobs)
  {
    var h := Occupied(cfg, jobs[j]);
    var s := Alone(jobs, j, Local(Place, 0), h);
    ReachPlacing(cfg, jobs, j);
    BlindPlacingOverwrites(cfg, j, jobs[j]);
    assert Fresh(h) && Enabled(cfg, jobs, s, Work(j));
  }

  lemma SafeJobsHarmless(cfg: Config, jobs: seq<Job>)
    requires AllSafe(cfg, jobs)
    ensures Harmless(cfg, jobs)
  {
    forall h, s, j: nat | Fresh(h) && Reachable(cfg, jobs, h, s) && Enabled(cfg, jobs, s, Work(j))
      ensures OnlyOwn(cfg, j, jobs[j], s.host, Step(cfg, jobs, s, Work(j)).host)
    {
      var acts :| IsRun(cfg, jobs, Init(jobs, h), acts, s);
      NeverOverwrites(cfg, jobs, h, acts, s, j);
    }
  }

  /** Exactly when deploys never overwrite: every job that may touch its target must be able to see
      it, by stat or by refreshing libvirt's list, when it checks that candidate. */
  lemma NeverOverwritesExactly(cfg: Config, jobs: seq<Job>)
    ensures Harmless(cfg, jobs) <==> AllSafe(cfg, jobs)
  {
    if AllSafe(cfg, jobs) {
      SafeJobsHarmless(cfg, jobs);
    } else {
      var j: nat :| j < |jobs| && !Safe(cfg, jobs[j]);
      UnsafeJobHarms(cfg, jobs, j);
    }
  }

  // ---- what a job leaves ----

  ghost function FilesOf(s: Sys, j: nat): set<Path> {
    set p | p in s.host.files && s.host.files[p].writer == Some(j)
  }

  ghost function DomainsOf(s: Sys, j: nat): set<string> {
    set d | d in s.host.domains && s.host.domains[d].writer == Some(j)
  }

  lemma OwnedFiles(cfg: Config, jobs: seq<Job>, s: Sys, j: nat)
    requires Inv(cfg, jobs, s) && j < |jobs| && InFlight(s, j)
    ensures FilesOf(s, j) == if HasImage(cfg, jobs[j], s.locals[j]) then {Dest(cfg, jobs[j])} else {}
  {
    assert JobOk(cfg, j, jobs[j], s.locals[j], s.host);
  }

  lemma OwnedDomains(cfg: Config, jobs: seq<Job>, s: Sys, j: nat)
    requires Inv(cfg, jobs, s) && j < |jobs| && InFlight(s, j)
    ensures DomainsOf(s, j) == if HasVM(jobs[j], s.locals[j]) then {jobs[j].vm} else {}
    ensures HasVM(jobs[j], s.locals[j]) ==>
              jobs[j].vm in s.host.domains && s.host.domains[jobs[j].vm] == Domain(Dest(cfg, jobs[j]), Some(j))
  {
    assert JobOk(cfg, j, jobs[j], s.locals[j], s.host);
  }

  /** The job has left nothing, or one VM over its one image. */
  ghost predicate CleanExit(cfg: Config, jobs: seq<Job>, s: Sys, j: nat)
    requires j < |jobs|
  {
    || (DomainsOf(s, j) == {} && FilesOf(s, j) == {})
    || (DomainsOf(s, j) == {jobs[j].vm} && FilesOf(s, j) == {Dest(cfg, jobs[j])}
        && jobs[j].vm in s.host.domains && s.host.domains[jobs[j].vm].disk == Dest(cfg, jobs[j]))
  }

  /** How a job that ended has lost the balance of VM and image: an image without a VM, because its
      unlink or a stat failed; or a VM without its image, because creation reported an error after
      defining the domain and the rollback then took the image away. */
  predicate Untidy(cfg: Config, job: Job, l: Local)
    requires l.stage.Ended?
  {
    match l.stage.o
    case PlaceFailed => job.luck.placement.CopyStuck? && !DestRefused(cfg, job)
    case Replaced => true
    case CreateFailed =>
      (!job.luck.removed || (l.ino != 0 && !job.luck.cleanupStatted)) != job.luck.created.DefinedThenFailed?
    case o => CleansUp(o) && (!job.luck.removed || (l.ino != 0 && !job.luck.cleanupStatted))
  }

  lemma UntidyIff(cfg: Config, job: Job, l: Local)
    requires l.stage.Ended?
    ensures Untidy(cfg, job, l) <==> HasVM(job, l) != LeavesImage(cfg, job, l)
  {
  }

  lemma CleanIff(cfg: Config, jobs: seq<Job>, s: Sys, j: nat, vm: bool, image: bool)
    requires j < |jobs|
    requires DomainsOf(s, j) == if vm then {jobs[j].vm} else {}
    requires FilesOf(s, j) == if image then {Dest(cfg, jobs[j])} else {}
    requires vm ==> jobs[j].vm in s.host.domains && s.host.domains[jobs[j].vm].disk == Dest(cfg, jobs[j])
    ensures CleanExit(cfg, jobs, s, j) <==> vm == image
  {
    assert jobs[j].vm in {jobs[j].vm} && Dest(cfg, jobs[j]) in {Dest(cfg, jobs[j])};
  }

  /** Compensation: when a job has ended and still holds its lock, what it left behind is exactly
      decided by how it ended, and it is one VM over its one image, or nothing, exactly when the
      exit was not an untidy one. */
  lemma ExitIsClean(cfg: Config, jobs: seq<Job>, h: Host, acts: seq<Action>, s: Sys, j: nat)
    requires Fresh(h) && AllSafe(cfg, jobs) && IsRun(cfg, jobs, Init(jobs, h), acts, s)
    requires Shaped(jobs, s) && j < |jobs| && InFlight(s, j) && s.locals[j].stage.Ended?
    ensures var l := s.locals[j];
            && DomainsOf(s, j) == (if HasVM(jobs[j], l) then {jobs[j].vm} else {})
            && FilesOf(s, j) == (if LeavesImage(cfg, jobs[j], l) then {Dest(cfg, jobs[j])} else {})
            && (CleanExit(cfg, jobs, s, j) <==> !Untidy(cfg, jobs[j], l))
  {
    InitInv(cfg, jobs, h);
    RunKeepsInv(cfg, jobs, Init(jobs, h), acts, s);
    ExitBalance(cfg, jobs, s, j);
  }

  lemma ExitBalance(cfg: Config, jobs: seq<Job>, s: Sys, j: nat)
    requires Inv(cfg, jobs, s) && j < |jobs| && InFlight(s, j) && s.locals[j].stage.Ended?
    ensures var l := s.locals[j];
            && DomainsOf(s, j) == (if HasVM(jobs[j], l) then {jobs[j].vm} else {})
            && FilesOf(s, j) == (if LeavesImage(cfg, jobs[j], l) then {Dest(cfg, jobs[j])} else {})
            && (CleanExit(cfg, jobs, s, j) <==> !Untidy(cfg, jobs[j], l))
  {
    var l := s.locals[j];
    OwnedFiles(cfg, jobs, s, j);
    OwnedDomains(cfg, jobs, s, j);
    UntidyIff(cfg, jobs[j], l);
    CleanIff(cfg, jobs, s, j, HasVM(jobs[j], l), LeavesImage(cfg, jobs[j], l));
  }

  /** A job that completes, or whose seed fails, leaves its VM over the very file it placed. */
  lemma VMOverItsImage(cfg: Config, jobs: seq<Job>, h: Host, acts: seq<Action>, s: Sys, j: nat)
    requires Fresh(h) && AllSafe(cfg, jobs) && IsRun(cfg, jobs, Init(jobs, h), acts, s)
    requires Shaped(jobs, s) && j < |jobs| && InFlight(s, j)
    requires s.locals[j].stage in {Ended(SeedFailed), Ended(Completed)}
    ensures var dest := Dest(cfg, jobs[j]);
            && jobs[j].vm in s.host.domains && s.host.domains[jobs[j].vm].disk == dest
            && dest in s.host.files && jobs[j].luck.placement == Placed(s.host.files[dest].ino)
  {
    InitInv(cfg, jobs, h);
    RunKeepsInv(cfg, jobs, Init(jobs, h), acts, s);
    assert JobOk(cfg, j, jobs[j], s.locals[j], s.host);
  }

  // ---- runs in which only deploys write ----

  ghost predicate OnlyDeploys(acts: seq<Action>) {
    forall i | 0 <= i < |acts| :: !acts[i].Environment?
  }

  ghost predicate Accounted(cfg: Config, id: nat, job: Job, l: Local, h: Host) {
    && (HasImage(cfg, job, l) ==> Dest(cfg, job) in h.files && h.files[Dest(cfg, job)].writer == Some(id))
    && (HasVM(job, l) ==> job.vm in h.domains && h.domains[job.vm] == Domain(Dest(cfg, job), Some(id)))
  }

  ghost predicate Undisturbed(h0: Host, h: Host) {
    && (forall p | p in h0.files :: p in h.files && h.files[p] == h0.files[p])
    && (forall p | p in h.files && h.files[p].writer.None? :: p in h0.files)
    && (forall d | d in h0.domains :: d in h.domains && h.domains[d] == h0.domains[d])
    && (forall d | d in h.domains && h.domains[d].writer.None? :: d in h0.domains)
  }

  /** The host is what it was, plus exactly what the jobs currently account for. */
  ghost predicate Conserved(cfg: Config, jobs: seq<Job>, h0: Host, s: Sys)
    requires Shaped(jobs, s)
  {
    && Undisturbed(h0, s.host)
    && (forall j | 0 <= j < |jobs| :: Accounted(cfg, j, jobs[j], s.locals[j], s.host))
  }

  lemma OnlyOwnUndisturbed(cfg: Config, id: nat, job: Job, h0: Host, h: Host, h': Host)
    requires Fresh(h0) && Undisturbed(h0, h) && OnlyOwn(cfg, id, job, h, h')
    ensures Undisturbed(h0, h')
  {
  }

  lemma OnlyOwnAccounted(cfg: Config, id: nat, job: Job, other: nat, otherJob: Job, l: Local, h: Host, h': Host)
    requires OnlyOwn(cfg, id, job, h, h') && other != id && Accounted(cfg, other, otherJob, l, h)
    ensures Accounted(cfg, other, otherJob, l, h')
  {
  }

  lemma StepConserves(cfg: Config, jobs: seq<Job>, h0: Host, s: Sys, a: Action)
    requires Inv(cfg, jobs, s) && Enabled(cfg, jobs, s, a) && AllSafe(cfg, jobs) && !a.Environment?
    requires Fresh(h0) && Conserved(cfg, jobs, h0, s)
    ensures Conserved(cfg, jobs, h0, Step(cfg, jobs, s, a))
  {
    var s' := Step(cfg, jobs, s, a);
    if a.Work? {
      WorkKeepsInv(cfg, jobs, s, a.j);
      OnlyOwnUndisturbed(cfg, a.j, jobs[a.j], h0, s.host, s'.host);
      assert JobOk(cfg, a.j, jobs[a.j], s'.locals[a.j], s'.host);
    }
    forall j | 0 <= j < |jobs| ensures Accounted(cfg, j, jobs[j], s'.locals[j], s'.host) {
      assert Accounted(cfg, j, jobs[j], s.locals[j], s.host);
      if a.Work? && a.j != j {
        OnlyOwnAccounted(cfg, a.j, jobs[a.j], j, jobs[j], s.locals[j], s.host, s'.host);
      }
    }
  }

  lemma {:induction false} RunConserves(cfg: Config, jobs: seq<Job>, h0: Host, s: Sys, acts: seq<Action>, s': Sys)
    requires Inv(cfg, jobs, s) && IsRun(cfg, jobs, s, acts, s') && AllSafe(cfg, jobs) && OnlyDeploys(acts)
    requires Fresh(h0) && Conserved(cfg, jobs, h0, s)
    ensures Inv(cfg, jobs, s') && Conserved(cfg, jobs, h0, s')
    decreases |acts|
  {
    if acts != [] {
      StepKeepsInv(cfg, jobs, s, acts[0]);
      StepConserves(cfg, jobs, h0, s, acts[0]);
      RunConserves(cfg, jobs, h0, Step(cfg, jobs, s, acts[0]), acts[1..], s');
    }
  }

  ghost function ImagesLeft(cfg: Config, jobs: seq<Job>, s: Sys): set<Path>
    requires Shaped(jobs, s)
  {
    set j | 0 <= j < |jobs| && HasImage(cfg, jobs[j], s.locals[j]) :: Dest(cfg, jobs[j])
  }

  ghost function VMsLeft(jobs: seq<Job>, s: Sys): set<string>
    requires Shaped(jobs, s)
  {
    set j | 0 <= j < |jobs| && HasVM(jobs[j], s.locals[j]) :: jobs[j].vm
  }

  /** Conservation: at every point of any interleaving of deploys the files and domains are the
      initial ones, untouched, plus one image for each job that has one and one VM for each job
      that made one; images of different jobs are different files. */
  lemma DeploysConserve(cfg: Config, jobs: seq<Job>, h: Host, acts: seq<Action>, s: Sys)
    requires Fresh(h) && AllSafe(cfg, jobs) && OnlyDeploys(acts) && IsRun(cfg, jobs, Init(jobs, h), acts, s)
    ensures Shaped(jobs, s)
    ensures s.host.files.Keys == h.files.Keys + ImagesLeft(cfg, jobs, s) && h.files.Keys !! ImagesLeft(cfg, jobs, s)
    ensures s.host.domains.Keys == h.domains.Keys + VMsLeft(jobs, s) && h.domains.Keys !! VMsLeft(jobs, s)
    ensures forall p | p in h.files :: s.host.files[p] == h.files[p]
    ensures forall d | d in h.domains :: s.host.domains[d] == h.domains[d]
    ensures forall j, k | 0 <= j < k < |jobs| && HasImage(cfg, jobs[j], s.locals[j]) && HasImage(cfg, jobs[k], s.locals[k]) ::
              Dest(cfg, jobs[j]) != Dest(cfg, jobs[k])
  {
    InitInv(cfg, jobs, h);
    RunConserves(cfg, jobs, h, Init(jobs, h), acts, s);
    ConservedKeys(cfg, jobs, h, s);
    forall j, k | 0 <= j < k < |jobs| && HasImage(cfg, jobs[j], s.locals[j]) && HasImage(cfg, jobs[k], s.locals[k])
      ensures Dest(cfg, jobs[j]) != Dest(cfg, jobs[k])
    {
      assert Accounted(cfg, j, jobs[j], s.locals[j], s.host) && Accounted(cfg, k, jobs[k], s.locals[k], s.host);
    }
  }

  lemma ImagesAreNew(cfg: Config, jobs: seq<Job>, h0: Host, s: Sys, p: Path)
    requires Shaped(jobs, s) && Fresh(h0) && Conserved(cfg, jobs, h0, s) && p in ImagesLeft(cfg, jobs, s)
    ensures p in s.host.files && s.host.files[p].writer.Some? && p !in h0.files
  {
    var j :| 0 <= j < |jobs| && HasImage(cfg, jobs[j], s.locals[j]) && Dest(cfg, jobs[j]) == p;
    assert Accounted(cfg, j, jobs[j], s.locals[j], s.host);
  }

  lemma VMsAreNew(cfg: Config, jobs: seq<Job>, h0: Host, s: Sys, d: string)
    requires Shaped(jobs, s) && Fresh(h0) && Conserved(cfg, jobs, h0, s) && d in VMsLeft(jobs, s)
    ensures d in s.host.domains && s.host.domains[d].writer.Some? && d !in h0.domains
  {
    var j :| 0 <= j < |jobs| && HasVM(jobs[j], s.locals[j]) && jobs[j].vm == d;
    assert Accounted(cfg, j, jobs[j], s.locals[j], s.host);
  }

  lemma ConservedFiles(cfg: Config, jobs: seq<Job>, h0: Host, s: Sys, p: Path)
    requires Shaped(jobs, s) && Fresh(h0) && Conserved(cfg, jobs, h0, s) && Provenance(cfg, jobs, s)
    ensures p in s.host.files <==> p in h0.files || p in ImagesLeft(cfg, jobs, s)
  {
    if p in ImagesLeft(cfg, jobs, s) { ImagesAreNew(cfg, jobs, h0, s, p); }
  }

  lemma ConservedDomains(cfg: Config, jobs: seq<Job>, h0: Host, s: Sys, d: string)
    requires Shaped(jobs, s) && Fresh(h0) && Conserved(cfg, jobs, h0, s) && Provenance(cfg, jobs, s)
    ensures d in s.host.domains <==> d in h0.domains || d in VMsLeft(jobs, s)
  {
    if d in VMsLeft(jobs, s) { VMsAreNew(cfg, jobs, h0, s, d); }
  }

  lemma ConservedKeys(cfg: Config, jobs: seq<Job>, h0: Host, s: Sys)
    requires Shaped(jobs, s) && Fresh(h0) && Conserved(cfg, jobs, h0, s) && Provenance(cfg, jobs, s)
    ensures s.host.files.Keys == h0.files.Keys + ImagesLeft(cfg, jobs, s) && h0.files.Keys !! ImagesLeft(cfg, jobs, s)
    ensures s.host.domains.Keys == h0.domains.Keys + VMsLeft(jobs, s) && h0.domains.Keys !! VMsLeft(jobs, s)
  {
    var images, vms := ImagesLeft(cfg, jobs, s), VMsLeft(jobs, s);
    forall p ensures (p in s.host.files <==> p in h0.files || p in images) && !(p in h0.files && p in images) {
      ConservedFiles(cfg, jobs, h0, s, p);
      if p in images { ImagesAreNew(cfg, jobs, h0, s, p); }
    }
    forall d ensures (d in s.host.domains <==> d in h0.domains || d in vms) && !(d in h0.domains && d in vms) {
      ConservedDomains(cfg, jobs, h0, s, d);
      if d in vms { VMsAreNew(cfg, jobs, h0, s, d); }
    }
  }
}
