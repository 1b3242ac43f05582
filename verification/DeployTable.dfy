/** How a deploy ends: for a job that runs alone, the exact outcome, files and domains on any host
  as a table over the answers of its calls; for a job among others, what each outcome says of them
  whatever anybody else does in between. */
module DeployTable {
  import opened Deploy
  import opened DeployJob
  import opened DeployRuns
  import opened Paths
  import opened Wrappers

  // ---- names ----

  predicate DotsAt(s: string, i: nat) {
    i + 1 < |s| && s[i] == '.' && s[i + 1] == '.'
  }

  lemma {:induction false} HasDotDotExactly(s: string)
    ensures HasDotDot(s) <==> exists i: nat :: DotsAt(s, i)
  {
    if |s| >= 2 {
      HasDotDotExactly(s[1..]);
      if DotsAt(s, 0) { assert s[..2] == ".."; }
      forall i: nat ensures DotsAt(s[1..], i) <==> DotsAt(s, i + 1) {}
      if i: nat :| DotsAt(s, i) { assert i == 0 || DotsAt(s[1..], i - 1); }
    }
  }

  predicate BreaksPath(s: string, i: nat) {
    i < |s| && (s[i] == '/' || s[i] == '\\' || DotsAt(s, i))
  }

  /** A name is refused exactly when it holds a separator or two dots in a row. */
  lemma BadNameExactly(s: string)
    ensures BadName(s) <==> exists i: nat :: BreaksPath(s, i)
  {
    HasDotDotExactly(s);
    if i: nat :| DotsAt(s, i) { assert BreaksPath(s, i); }
    if '/' in s { var i: nat :| i < |s| && s[i] == '/'; assert BreaksPath(s, i); }
    if '\\' in s { var i: nat :| i < |s| && s[i] == '\\'; assert BreaksPath(s, i); }
  }

  // ---- the table ----

  function Qcow2(cfg: Config, job: Job): Path
    requires job.pool in cfg
  {
    Path(cfg[job.pool], job.vm + ".qcow2")
  }

  function Raw(cfg: Config, job: Job): Path
    requires job.pool in cfg
  {
    Path(cfg[job.pool], job.vm + ".img")
  }

  function Image(cfg: Config, job: Job): Path
    requires job.pool in cfg
  {
    if job.raw then Raw(cfg, job) else Qcow2(cfg, job)
  }

  /** What one candidate check says, when a file is there or not and libvirt lists it or not: an
      unanswered volume query is not taken for absence, and a refresh lists what is there. */
  function CandidateVerdict(there: bool, listed: bool, statted: bool, answered: bool, refreshed: bool): Option<Outcome> {
    if there && statted then Some(Taken)
    else if !answered then Some(VerifyFailed)
    else if listed || (there && refreshed) then Some(Taken)
    else None
  }

  /** The .qcow2 candidate first; its refresh lists the .img file as well. */
  function CandidatesVerdict(cfg: Config, job: Job, h: Host): Option<Outcome>
    requires job.pool in cfg
  {
    var k, p, q := job.luck, Qcow2(cfg, job), Raw(cfg, job);
    var first := CandidateVerdict(p in h.files, (job.pool, p.name) in h.volumes, k.statted, k.volumeAnswered, k.volumeRefreshed);
    if first.Some? then first
    else CandidateVerdict(q in h.files, if k.volumeRefreshed then q in h.files else (job.pool, q.name) in h.volumes,
                          k.statted2, k.volumeAnswered2, k.volumeRefreshed2)
  }

  /** What stops the job before it has placed anything. */
  function PreflightVerdict(cfg: Config, job: Job, h: Host): Option<Outcome> {
    var k := job.luck;
    if !k.resolved || job.pool !in cfg then Some(PoolUnresolved)
    else if BadName(job.vm) || BadName(job.pool) || !k.domainAnswered then Some(VerifyFailed)
    else if job.vm in h.domains then Some(Taken)
    else if !k.pathAnswered || HasDotDot(cfg[job.pool]) then Some(VerifyFailed)
    else
      var stop := if HasDotDot(job.vm + ".qcow2") then None else CandidatesVerdict(cfg, job, h);
      if stop.Some? then stop
      else if !k.fetched then Some(FetchFailed)
      else None
  }

  /** The inode of the placed file was recorded. */
  predicate Recorded(job: Job) {
    job.luck.markStatted && job.luck.placement.Placed? && job.luck.placement.ino != 0
  }

  /** What ends the job when it asks for its VM. */
  function CreateVerdict(job: Job): Outcome {
    var k := job.luck;
    if Recorded(job) && !k.createStatted then Replaced
    else if k.created != Created then CreateFailed
    else if job.seed && !k.seeded then SeedFailed
    else Completed
  }

  function RecheckVerdict(job: Job): Outcome {
    if job.owner != "" && !job.luck.withinQuota then OverQuota else CreateVerdict(job)
  }

  /** `listed` says whether libvirt knows the image already. */
  function RegisterVerdict(job: Job, listed: bool): Outcome {
    var k := job.luck;
    if !k.volumeFound || !(k.refreshed || listed) then NotRegistered
    else if Recorded(job) && !k.registerStatted then Replaced
    else RecheckVerdict(job)
  }

  /** What ends the job once its image is in place. */
  function PlacedVerdict(job: Job, listed: bool): Outcome {
    if !job.luck.resized then ResizeFailed else RegisterVerdict(job, listed)
  }

  /** The pre-flight overlooked a .qcow2 file and the refresh for the .img candidate listed it. */
  predicate ListedUnseen(cfg: Config, job: Job, h: Host)
    requires job.pool in cfg
  {
    !job.raw && job.luck.volumeRefreshed2 && Qcow2(cfg, job) in h.files
  }

  predicate Refused(job: Job) {
    HasDotDot(job.vm + (if job.raw then ".img" else ".qcow2"))
  }

  function Verdict(cfg: Config, job: Job, h: Host): Outcome {
    var early := PreflightVerdict(cfg, job, h);
    if early.Some? then early.value
    else if Refused(job) || !job.luck.placement.Placed? then PlaceFailed
    else PlacedVerdict(job, ListedUnseen(cfg, job, h))
  }

  /** The rollback of an exit that has one does not get to unlink the image. */
  predicate RollbackFails(job: Job) {
    !job.luck.removed || (Recorded(job) && !job.luck.cleanupStatted)
  }

  function FinalFiles(cfg: Config, id: nat, job: Job, h: Host): map<Path, File> {
    if PreflightVerdict(cfg, job, h).Some? || Refused(job) then h.files
    else
      var image, o := Image(cfg, job), PlacedVerdict(job, ListedUnseen(cfg, job, h));
      match job.luck.placement
      case NothingWritten => h.files
      case CopyFailed => h.files - {image}
      case CopyStuck(ino) => h.files[image := File(ino, Some(id))]
      case Placed(ino) =>
        if o.Completed? || o.SeedFailed? || o.Replaced? || RollbackFails(job) then h.files[image := File(ino, Some(id))]
        else h.files - {image}
  }

  function FinalDomains(cfg: Config, id: nat, job: Job, h: Host): map<string, Domain> {
    var o := Verdict(cfg, job, h);
    if o.Completed? || o.SeedFailed? || (o.CreateFailed? && job.luck.created.DefinedThenFailed?)
    then h.domains[job.vm := Domain(Image(cfg, job), Some(id))]
    else h.domains
  }

  // ---- the run is the table ----

  lemma RefreshKnows(h: Host, cfg: Config, pool: string, ok: bool, p: Path)
    requires pool in cfg && p.dir == cfg[pool]
    ensures (pool, p.name) in RefreshPool(h, cfg, pool, ok).volumes
            <==> if ok then p in h.files else (pool, p.name) in h.volumes
  {
    if ok && p in h.files { RefreshLists(h, cfg, pool, p); }
  }

  lemma CheckOneIs(cfg: Config, job: Job, k: nat, h: Host, p: Path)
    requires k < 2 && job.pool in cfg && p == Path(cfg[job.pool], DiskCandidates(job.vm)[k]) && !HasDotDot(p.name)
    ensures var a := job.luck;
            var v := (job.pool, p.name) in h.volumes;
            var c := if k == 0 then CandidateVerdict(p in h.files, v, a.statted, a.volumeAnswered, a.volumeRefreshed)
                     else CandidateVerdict(p in h.files, v, a.statted2, a.volumeAnswered2, a.volumeRefreshed2);
            && CheckOne(cfg, job, k, h).0 == c
            && (c == None ==> CheckOne(cfg, job, k, h).1
                              == RefreshPool(h, cfg, job.pool, if k == 0 then a.volumeRefreshed else a.volumeRefreshed2))
  {
    RefreshKnows(h, cfg, job.pool, if k == 0 then job.luck.volumeRefreshed else job.luck.volumeRefreshed2, p);
  }

  lemma CheckedSame(cfg: Config, job: Job, k: nat, h: Host)
    requires k < 2
    ensures CheckOne(cfg, job, k, h).1.files == h.files && CheckOne(cfg, job, k, h).1.domains == h.domains
  {
  }

  lemma CandidateStep(cfg: Config, id: nat, job: Job, k: nat, h: Host)
    requires k < 2
    ensures var (stop, h') := CheckOne(cfg, job, k, h);
            Solo(cfg, id, job, Local(CheckCandidate(k), 0), h)
            == if stop.Some? then (Local(Ended(stop.value), 0), h') else Solo(cfg, id, job, Local(CheckCandidate(k + 1), 0), h')
  {
    Unfold(cfg, id, job, Local(CheckCandidate(k), 0), h);
  }

  lemma CandidatesRun(cfg: Config, id: nat, job: Job, h: Host) returns (h': Host)
    requires job.pool in cfg && !HasDotDot(job.vm + ".qcow2")
    ensures h'.files == h.files && h'.domains == h.domains
    ensures Solo(cfg, id, job, Local(CheckCandidate(0), 0), h)
            == match CandidatesVerdict(cfg, job, h)
               case Some(o) => (Local(Ended(o), 0), h')
               case None => Solo(cfg, id, job, Local(CheckCandidate(2), 0), h')
    ensures CandidatesVerdict(cfg, job, h).None? ==>
              ((job.pool, Image(cfg, job).name) in h'.volumes <==> ListedUnseen(cfg, job, h))
  {
    var p, q := Qcow2(cfg, job), Raw(cfg, job);
    CandidatesAlike(job.vm);
    CandidateStep(cfg, id, job, 0, h);
    CheckOneIs(cfg, job, 0, h, p);
    CheckedSame(cfg, job, 0, h);
    h' := CheckOne(cfg, job, 0, h).1;
    if CheckOne(cfg, job, 0, h).0 == None {
      var h1 := h';
      RefreshKnows(h, cfg, job.pool, job.luck.volumeRefreshed, p);
      RefreshKnows(h, cfg, job.pool, job.luck.volumeRefreshed, q);
      CandidateStep(cfg, id, job, 1, h1);
      CheckOneIs(cfg, job, 1, h1, q);
      CheckedSame(cfg, job, 1, h1);
      RefreshKnows(h1, cfg, job.pool, job.luck.volumeRefreshed2, p);
      RefreshKnows(h1, cfg, job.pool, job.luck.volumeRefreshed2, q);
      h' := CheckOne(cfg, job, 1, h1).1;
    }
  }

  lemma SkippedRun(cfg: Config, id: nat, job: Job, h: Host)
    requires HasDotDot(job.vm + ".qcow2")
    ensures Solo(cfg, id, job, Local(CheckCandidate(0), 0), h) == Solo(cfg, id, job, Local(CheckCandidate(2), 0), h)
  {
    CandidatesAlike(job.vm);
    CandidateStep(cfg, id, job, 0, h);
    CandidateStep(cfg, id, job, 1, h);
  }

  lemma FetchRun(cfg: Config, id: nat, job: Job, h: Host)
    ensures Solo(cfg, id, job, Local(CheckCandidate(2), 0), h)
            == if job.luck.fetched then Solo(cfg, id, job, Local(Place, 0), h) else (Local(Ended(FetchFailed), 0), h)
  {
    Unfold(cfg, id, job, Local(CheckCandidate(2), 0), h);
    Unfold(cfg, id, job, Local(Fetch, 0), h);
  }

  lemma NameRun(cfg: Config, id: nat, job: Job, h: Host)
    requires job.luck.resolved && job.pool in cfg
    ensures Solo(cfg, id, job, Local(Start, 0), h)
            == if BadName(job.vm) || BadName(job.pool) || !job.luck.domainAnswered then (Local(Ended(VerifyFailed), 0), h)
               else if job.vm in h.domains then (Local(Ended(Taken), 0), h)
               else if !job.luck.pathAnswered || HasDotDot(cfg[job.pool]) then (Local(Ended(VerifyFailed), 0), h)
               else Solo(cfg, id, job, Local(CheckCandidate(0), 0), h)
  {
    Unfold(cfg, id, job, Local(Start, 0), h);
    Unfold(cfg, id, job, Local(Resolve, 0), h);
    Unfold(cfg, id, job, Local(CheckDomain, 0), h);
  }

  lemma UnresolvedRun(cfg: Config, id: nat, job: Job, h: Host)
    requires !job.luck.resolved || job.pool !in cfg
    ensures Solo(cfg, id, job, Local(Start, 0), h) == (Local(Ended(PoolUnresolved), 0), h)
  {
    Unfold(cfg, id, job, Local(Start, 0), h);
    Unfold(cfg, id, job, Local(Resolve, 0), h);
  }

  /** The domain check stops the job. */
  predicate NameStops(cfg: Config, job: Job, h: Host)
    requires job.pool in cfg
  {
    || BadName(job.vm) || BadName(job.pool) || !job.luck.domainAnswered || job.vm in h.domains
    || !job.luck.pathAnswered || HasDotDot(cfg[job.pool])
  }

  lemma CheckedRun(cfg: Config, id: nat, job: Job, h: Host) returns (h': Host)
    requires job.luck.resolved && job.pool in cfg && !NameStops(cfg, job, h)
    ensures h'.files == h.files && h'.domains == h.domains
    ensures Solo(cfg, id, job, Local(CheckCandidate(0), 0), h)
            == match PreflightVerdict(cfg, job, h)
               case Some(o) => (Local(Ended(o), 0), h')
               case None => Solo(cfg, id, job, Local(Place, 0), h')
    ensures PreflightVerdict(cfg, job, h).None? && !Refused(job) ==>
              ((job.pool, Image(cfg, job).name) in h'.volumes <==> ListedUnseen(cfg, job, h))
  {
    CandidatesAlike(job.vm);
    if HasDotDot(job.vm + ".qcow2") {
      SkippedRun(cfg, id, job, h);
      h' := h;
    } else {
      h' := CandidatesRun(cfg, id, job, h);
    }
    FetchRun(cfg, id, job, h');
  }

  lemma PreflightRun(cfg: Config, id: nat, job: Job, h: Host) returns (h': Host)
    ensures h'.files == h.files && h'.domains == h.domains
    ensures Solo(cfg, id, job, Local(Start, 0), h)
            == match PreflightVerdict(cfg, job, h)
               case Some(o) => (Local(Ended(o), 0), h')
               case None => Solo(cfg, id, job, Local(Place, 0), h')
    ensures PreflightVerdict(cfg, job, h).None? && !Refused(job) ==>
              ((job.pool, Image(cfg, job).name) in h'.volumes <==> ListedUnseen(cfg, job, h))
  {
    h' := h;
    if !job.luck.resolved || job.pool !in cfg {
      UnresolvedRun(cfg, id, job, h);
    } else {
      NameRun(cfg, id, job, h);
      if !NameStops(cfg, job, h) { h' := CheckedRun(cfg, id, job, h); }
    }
  }

  // ---- from the placed image on ----

  function Mine(cfg: Config, id: nat, job: Job): File
    requires job.luck.placement.Placed?
  {
    File(job.luck.placement.ino, Some(id))
  }

  /** The image is in place and its inode was recorded, or could not be. */
  ghost predicate InPlace(cfg: Config, id: nat, job: Job, ino: nat, h: Host) {
    && job.pool in cfg && job.luck.placement.Placed? && !Refused(job) && !HasDotDot(cfg[job.pool])
    && job.vm !in h.domains
    && Image(cfg, job) in h.files && h.files[Image(cfg, job)] == Mine(cfg, id, job)
    && ino == if Recorded(job) then job.luck.placement.ino else 0
  }

  lemma CleanupRun(cfg: Config, id: nat, job: Job, ino: nat, h: Host, why: Outcome)
    requires InPlace(cfg, id, job, ino, h.(domains := h.domains - {job.vm}))
    ensures var (l', h') := Solo(cfg, id, job, Local(Cleanup(why), ino), h);
            && l'.stage == Ended(why) && h'.domains == h.domains
            && h'.files == (if RollbackFails(job) then h.files else h.files - {Image(cfg, job)})
            && (!RollbackFails(job) && job.luck.cleanupRefreshed ==> (job.pool, Image(cfg, job).name) !in h'.volumes)
  {
    Unfold(cfg, id, job, Local(Cleanup(why), ino), h);
    RefreshKnows(h.(files := h.files - {Image(cfg, job)}), cfg, job.pool, job.luck.cleanupRefreshed, Image(cfg, job));
  }

  /** What an exit with outcome `o` leaves of a host that holds the placed image. */
  ghost predicate Leaves(cfg: Config, id: nat, job: Job, o: Outcome, h: Host, h': Host)
    requires job.pool in cfg
  {
    && h'.files == (if o.Completed? || o.SeedFailed? || o.Replaced? || RollbackFails(job) then h.files
                    else h.files - {Image(cfg, job)})
    && h'.domains == if o.Completed? || o.SeedFailed? || (o.CreateFailed? && job.luck.created.DefinedThenFailed?)
                     then h.domains[job.vm := Domain(Image(cfg, job), Some(id))] else h.domains
  }

  /** What libvirt lists of the image at the end: it does when the job succeeded, and does not when the
      rollback got through. */
  ghost predicate Lists(cfg: Config, job: Job, o: Outcome, h': Host)
    requires job.pool in cfg
  {
    var listed := (job.pool, Image(cfg, job).name) in h'.volumes;
    && (o.Completed? || o.SeedFailed? ==> listed)
    && (CleansUp(o) && !RollbackFails(job) && job.luck.cleanupRefreshed ==> !listed)
  }

  /** The run `r` from host `h`, which holds the placed image, ends so. */
  ghost predicate EndsAs(cfg: Config, id: nat, job: Job, o: Outcome, h: Host, r: (Local, Host))
    requires job.pool in cfg
  {
    r.0.stage == Ended(o) && Leaves(cfg, id, job, o, h, r.1) && Lists(cfg, job, o, r.1)
  }

  lemma SeedRun(cfg: Config, id: nat, job: Job, ino: nat, h: Host)
    ensures Solo(cfg, id, job, Local(Seed, ino), h)
            == (Local(Ended(if job.seed && !job.luck.seeded then SeedFailed else Completed), ino), h)
  {
    Unfold(cfg, id, job, Local(Seed, ino), h);
  }

  lemma CreateFailedRun(cfg: Config, id: nat, job: Job, ino: nat, h: Host)
    requires InPlace(cfg, id, job, ino, h) && job.luck.created != Created && (Recorded(job) ==> job.luck.createStatted)
    ensures EndsAs(cfg, id, job, CreateFailed, h, Solo(cfg, id, job, Local(Create, ino), h))
  {
    var vm := if job.luck.created.NotCreated? then h else h.(domains := h.domains[job.vm := Domain(Image(cfg, job), Some(id))]);
    assert vm.domains - {job.vm} == h.domains - {job.vm} == h.domains;
    Unfold(cfg, id, job, Local(Create, ino), h);
    CleanupRun(cfg, id, job, ino, vm, CreateFailed);
  }

  lemma CreateRun(cfg: Config, id: nat, job: Job, ino: nat, h: Host)
    requires InPlace(cfg, id, job, ino, h) && (job.pool, Image(cfg, job).name) in h.volumes
    ensures EndsAs(cfg, id, job, CreateVerdict(job), h, Solo(cfg, id, job, Local(Create, ino), h))
  {
    if job.luck.created != Created && (Recorded(job) ==> job.luck.createStatted) {
      CreateFailedRun(cfg, id, job, ino, h);
    } else {
      Unfold(cfg, id, job, Local(Create, ino), h);
      SeedRun(cfg, id, job, ino, h.(domains := h.domains[job.vm := Domain(Image(cfg, job), Some(id))]));
    }
  }

  lemma CleanedRun(cfg: Config, id: nat, job: Job, ino: nat, h: Host, why: Outcome)
    requires InPlace(cfg, id, job, ino, h) && (why.ResizeFailed? || why.NotRegistered? || why.OverQuota?)
    ensures EndsAs(cfg, id, job, why, h, Solo(cfg, id, job, Local(Cleanup(why), ino), h))
  {
    assert h.domains - {job.vm} == h.domains;
    CleanupRun(cfg, id, job, ino, h, why);
  }

  lemma RecheckRun(cfg: Config, id: nat, job: Job, ino: nat, h: Host)
    requires InPlace(cfg, id, job, ino, h) && (job.pool, Image(cfg, job).name) in h.volumes
    ensures EndsAs(cfg, id, job, RecheckVerdict(job), h, Solo(cfg, id, job, Local(Recheck, ino), h))
  {
    Unfold(cfg, id, job, Local(Recheck, ino), h);
    if job.owner != "" && !job.luck.withinQuota {
      CleanedRun(cfg, id, job, ino, h, OverQuota);
    } else {
      CreateRun(cfg, id, job, ino, h);
    }
  }

  lemma RegisterRun(cfg: Config, id: nat, job: Job, ino: nat, h: Host) returns (h': Host)
    requires InPlace(cfg, id, job, ino, h)
    ensures h'.files == h.files && h'.domains == h.domains
    ensures var k := job.luck;
            Solo(cfg, id, job, Local(Register, ino), h)
            == if !k.volumeFound || !(k.refreshed || (job.pool, Image(cfg, job).name) in h.volumes)
               then Solo(cfg, id, job, Local(Cleanup(NotRegistered), ino), h')
               else if Recorded(job) && !k.registerStatted then (Local(Ended(Replaced), ino), h')
               else Solo(cfg, id, job, Local(Recheck, ino), h')
    ensures (job.pool, Image(cfg, job).name) in h'.volumes <==> job.luck.refreshed || (job.pool, Image(cfg, job).name) in h.volumes
  {
    h' := RefreshPool(h, cfg, job.pool, job.luck.refreshed);
    RefreshKnows(h, cfg, job.pool, job.luck.refreshed, Image(cfg, job));
    Unfold(cfg, id, job, Local(Register, ino), h);
  }

  /** Only files, domains and the recorded answers count. */
  lemma SameEnd(cfg: Config, id: nat, job: Job, o: Outcome, h: Host, h': Host, r: (Local, Host))
    requires job.pool in cfg && EndsAs(cfg, id, job, o, h', r) && h'.files == h.files && h'.domains == h.domains
    ensures EndsAs(cfg, id, job, o, h, r)
  {
  }

  lemma RegisteredRun(cfg: Config, id: nat, job: Job, ino: nat, h: Host)
    requires InPlace(cfg, id, job, ino, h)
    ensures var o := RegisterVerdict(job, (job.pool, Image(cfg, job).name) in h.volumes);
            EndsAs(cfg, id, job, o, h, Solo(cfg, id, job, Local(Register, ino), h))
  {
    var h1 := RegisterRun(cfg, id, job, ino, h);
    var o := RegisterVerdict(job, (job.pool, Image(cfg, job).name) in h.volumes);
    if o.NotRegistered? {
      CleanedRun(cfg, id, job, ino, h1, NotRegistered);
    } else if !(Recorded(job) && !job.luck.registerStatted) {
      RecheckRun(cfg, id, job, ino, h1);
    }
    SameEnd(cfg, id, job, o, h, h1, Solo(cfg, id, job, Local(Register, ino), h));
  }

  lemma PlacedRun(cfg: Config, id: nat, job: Job, ino: nat, h: Host)
    requires InPlace(cfg, id, job, ino, h)
    ensures var o := PlacedVerdict(job, (job.pool, Image(cfg, job).name) in h.volumes);
            EndsAs(cfg, id, job, o, h, Solo(cfg, id, job, Local(Resize, ino), h))
  {
    Unfold(cfg, id, job, Local(Resize, ino), h);
    if job.luck.resized {
      RegisteredRun(cfg, id, job, ino, h);
    } else {
      CleanedRun(cfg, id, job, ino, h, ResizeFailed);
    }
  }

  lemma PlaceRun(cfg: Config, id: nat, job: Job, h: Host)
    requires job.pool in cfg && !HasDotDot(cfg[job.pool])
    ensures var k := job.luck.placement;
            Refused(job) || !k.Placed? ==>
              var (l', h') := Solo(cfg, id, job, Local(Place, 0), h);
              && l' == Local(Ended(PlaceFailed), 0) && h'.domains == h.domains
              && h'.files == if Refused(job) then h.files else PlacedFiles(h.files, id, Image(cfg, job), k)
    ensures !Refused(job) && job.luck.placement.Placed? ==>
              Solo(cfg, id, job, Local(Place, 0), h)
              == Solo(cfg, id, job, Local(Resize, if Recorded(job) then job.luck.placement.ino else 0),
                      h.(files := h.files[Image(cfg, job) := Mine(cfg, id, job)]))
  {
    Unfold(cfg, id, job, Local(Place, 0), h);
    if !Refused(job) && job.luck.placement.Placed? {
      Unfold(cfg, id, job, Local(Mark, 0), h.(files := h.files[Image(cfg, job) := Mine(cfg, id, job)]));
    }
  }

  lemma ProvisionedRun(cfg: Config, id: nat, job: Job, h: Host)
    requires job.pool in cfg && !HasDotDot(cfg[job.pool]) && !Refused(job) && job.luck.placement.Placed?
    requires job.vm !in h.domains
    ensures var image, o := Image(cfg, job), PlacedVerdict(job, (job.pool, Image(cfg, job).name) in h.volumes);
            && EndsAs(cfg, id, job, o, h.(files := h.files[image := Mine(cfg, id, job)]), Solo(cfg, id, job, Local(Place, 0), h))
            && h.files[image := Mine(cfg, id, job)] - {image} == h.files - {image}
  {
    PlaceRun(cfg, id, job, h);
    var h2 := h.(files := h.files[Image(cfg, job) := Mine(cfg, id, job)]);
    PlacedRun(cfg, id, job, if Recorded(job) then job.luck.placement.ino else 0, h2);
  }

  lemma EndsEarly(cfg: Config, id: nat, job: Job, h: Host)
    requires PreflightVerdict(cfg, job, h).Some? || Refused(job) || !job.luck.placement.Placed?
    ensures var (l', h') := Solo(cfg, id, job, Local(Start, 0), h);
            && l'.stage == Ended(Verdict(cfg, job, h)) && !CleansUp(l'.stage.o) && !l'.stage.o.Completed? && !l'.stage.o.SeedFailed?
            && h'.files == FinalFiles(cfg, id, job, h) && h'.domains == h.domains
  {
    var h1 := PreflightRun(cfg, id, job, h);
    if PreflightVerdict(cfg, job, h).None? { PlaceRun(cfg, id, job, h1); }
  }

  lemma EndsLate(cfg: Config, id: nat, job: Job, h: Host)
    requires PreflightVerdict(cfg, job, h).None? && !Refused(job) && job.luck.placement.Placed?
    ensures var (l', h') := Solo(cfg, id, job, Local(Start, 0), h);
            && l'.stage == Ended(Verdict(cfg, job, h))
            && h'.files == FinalFiles(cfg, id, job, h) && h'.domains == FinalDomains(cfg, id, job, h)
            && Lists(cfg, job, l'.stage.o, h')
  {
    var h1 := PreflightRun(cfg, id, job, h);
    ProvisionedRun(cfg, id, job, h1);
  }

  /** The whole table, on every host and for every pattern of answers: the outcome, the files, the
      domains and what libvirt lists when nobody else takes a step. */
  lemma DeployEndsExactly(cfg: Config, id: nat, job: Job, h: Host)
    ensures var (l', h') := Solo(cfg, id, job, Local(Start, 0), h);
            && l'.stage == Ended(Verdict(cfg, job, h))
            && h'.files == FinalFiles(cfg, id, job, h) && h'.domains == FinalDomains(cfg, id, job, h)
            && (job.pool in cfg ==> Lists(cfg, job, l'.stage.o, h'))
  {
    if PreflightVerdict(cfg, job, h).None? && !Refused(job) && job.luck.placement.Placed? {
      EndsLate(cfg, id, job, h);
    } else {
      EndsEarly(cfg, id, job, h);
    }
  }

  lemma FreeIsUnseen(cfg: Config, job: Job, h: Host)
    requires GoodNames(cfg, job) && TargetFree(cfg, job, h)
    ensures Qcow2(cfg, job) !in h.files && Raw(cfg, job) !in h.files && job.vm !in h.domains
    ensures (job.pool, job.vm + ".qcow2") !in h.volumes && (job.pool, job.vm + ".img") !in h.volumes
  {
    assert Path(Dir(cfg, job), DiskCandidates(job.vm)[0]) !in h.files && Path(Dir(cfg, job), DiskCandidates(job.vm)[1]) !in h.files;
  }

  /** On a free target a job completes exactly when every call it makes was answered. */
  lemma CompletesExactly(cfg: Config, id: nat, job: Job, h: Host)
    requires GoodNames(cfg, job) && TargetFree(cfg, job, h)
    ensures var k := job.luck;
            Solo(cfg, id, job, Local(Start, 0), h).0.stage == Ended(Completed) <==>
              && k.resolved && k.domainAnswered && k.pathAnswered && k.volumeAnswered && k.volumeAnswered2
              && k.fetched && k.placement.Placed? && k.resized && k.refreshed && k.volumeFound
              && (job.owner == "" || k.withinQuota) && k.created == Created && (job.seed ==> k.seeded)
              && (k.markStatted && k.placement.ino != 0 ==> k.registerStatted && k.createStatted)
  {
    FreeIsUnseen(cfg, job, h);
    DeployEndsExactly(cfg, id, job, h);
  }

  lemma OverQuotaVerdict(cfg: Config, id: nat, job: Job, h: Host)
    requires job.pool in cfg && Image(cfg, job) !in h.files && job.owner != "" && !job.luck.withinQuota
    ensures var o := Verdict(cfg, job, h); !o.Completed? && !o.SeedFailed? && !o.CreateFailed?
    ensures var k := job.luck;
            k.placement.Placed? && k.removed && k.registerStatted && k.cleanupStatted ==> FinalFiles(cfg, id, job, h) == h.files
  {
    assert h.files - {Image(cfg, job)} == h.files;
  }

  /** On a free target an owner whose quota the placed image breaks gets no VM and, once the rollback is
      answered, keeps no image. */
  lemma OverQuotaAlone(cfg: Config, id: nat, job: Job, h: Host)
    requires GoodNames(cfg, job) && TargetFree(cfg, job, h) && job.owner != "" && !job.luck.withinQuota
    ensures var (l', h') := Solo(cfg, id, job, Local(Start, 0), h);
            var k := job.luck;
            && l'.stage != Ended(Completed) && l'.stage != Ended(SeedFailed) && h'.domains == h.domains
            && (k.placement.Placed? && k.removed && k.registerStatted && k.cleanupStatted ==> h'.files == h.files)
  {
    FreeIsUnseen(cfg, job, h);
    DeployEndsExactly(cfg, id, job, h);
    OverQuotaVerdict(cfg, id, job, h);
  }

  // ---- with anybody else at work in between ----

  /** The calls a job must have had answered before it asks for its VM. */
  predicate Cleared(cfg: Config, job: Job) {
    var k := job.luck;
    && k.resolved && job.pool in cfg && !BadName(job.vm) && k.domainAnswered && k.pathAnswered
    && k.fetched && k.placement.Placed? && !Refused(job) && k.resized && k.volumeFound
    && (job.owner == "" || k.withinQuota)
  }

  /** What an outcome says of the answers the job got. */
  predicate Means(cfg: Config, job: Job, o: Outcome) {
    var k := job.luck;
    match o
    case PoolUnresolved => !k.resolved || job.pool !in cfg
    case VerifyFailed =>
      || BadName(job.vm) || BadName(job.pool) || HasDotDot(Dir(cfg, job))
      || !k.domainAnswered || !k.pathAnswered || !k.volumeAnswered || !k.volumeAnswered2
    case Taken => k.resolved && k.domainAnswered && !BadName(job.vm)
    case FetchFailed => k.domainAnswered && k.pathAnswered && !k.fetched
    case PlaceFailed => k.fetched && (Refused(job) || !k.placement.Placed?)
    case ResizeFailed => k.placement.Placed? && !k.resized
    case NotRegistered => k.placement.Placed? && k.resized
    case Replaced => k.placement.Placed? && k.markStatted && k.resized && k.volumeFound
    case OverQuota => k.resized && k.volumeFound && job.owner != "" && !k.withinQuota
    case CreateFailed => Cleared(cfg, job)
    case SeedFailed => Cleared(cfg, job) && k.created == Created && job.seed && !k.seeded
    case Completed => Cleared(cfg, job) && k.created == Created && (job.seed ==> k.seeded)
  }

  /** What the stage of a job says of the answers it got. */
  predicate Knows(cfg: Config, job: Job, l: Local) {
    var k := job.luck;
    && Passed(cfg, job, Depth(l.stage))
    && (l.ino != 0 ==> k.markStatted)
    && match l.stage
       case Register => k.resized
       case Recheck => k.resized && k.volumeFound
       case Create => Cleared(cfg, job)
       case Seed => Cleared(cfg, job) && k.created == Created
       case Cleanup(o) => CleansUp(o) && Means(cfg, job, o)
       case Ended(o) => Means(cfg, job, o)
       case _ => true
  }

  /** Up to the download. */
  predicate Early(st: Stage) {
    st.Start? || st.Resolve? || st.CheckDomain? || st.CheckCandidate? || st.Fetch?
  }

  lemma EarlyKnows(cfg: Config, id: nat, job: Job, l: Local, h: Host)
    requires Knows(cfg, job, l) && Early(l.stage)
    ensures Knows(cfg, job, Advance(cfg, id, job, l, h).0)
  {
    AdvancePasses(cfg, id, job, l, h);
  }

  /** From placing to registering. */
  predicate Middle(st: Stage) {
    st.Place? || st.Mark? || st.Resize? || st.Register?
  }

  lemma MiddleKnows(cfg: Config, id: nat, job: Job, l: Local, h: Host)
    requires Knows(cfg, job, l) && Middle(l.stage)
    ensures Knows(cfg, job, Advance(cfg, id, job, l, h).0)
  {
    AdvancePasses(cfg, id, job, l, h);
  }

  lemma LateKnows(cfg: Config, id: nat, job: Job, l: Local, h: Host)
    requires Knows(cfg, job, l) && !Early(l.stage) && !Middle(l.stage) && !l.stage.Ended?
    ensures Knows(cfg, job, Advance(cfg, id, job, l, h).0)
  {
    AdvancePasses(cfg, id, job, l, h);
  }

  lemma AdvanceKnows(cfg: Config, id: nat, job: Job, l: Local, h: Host)
    requires Knows(cfg, job, l)
    ensures Knows(cfg, job, Advance(cfg, id, job, l, h).0)
  {
    if Early(l.stage) {
      EarlyKnows(cfg, id, job, l, h);
    } else if Middle(l.stage) {
      MiddleKnows(cfg, id, job, l, h);
    } else if !l.stage.Ended? {
      LateKnows(cfg, id, job, l, h);
    }
  }

  lemma {:induction false} AfterKnows(cfg: Config, id: nat, job: Job, seen: seq<Host>, n: nat)
    requires n <= |seen|
    ensures Knows(cfg, job, LocalAfter(cfg, id, job, seen, n))
  {
    if n > 0 {
      AfterKnows(cfg, id, job, seen, n - 1);
      AdvanceKnows(cfg, id, job, LocalAfter(cfg, id, job, seen, n - 1), seen[n - 1]);
    }
  }

  /** Under any interference at all, by anybody, between any two effects: the outcome of a job tells
      the truth about the answers it got. */
  lemma OutcomeTellsTheTruth(cfg: Config, id: nat, job: Job, seen: seq<Host>, n: nat)
    requires n <= |seen| && LocalAfter(cfg, id, job, seen, n).stage.Ended?
    ensures Means(cfg, job, LocalAfter(cfg, id, job, seen, n).stage.o)
  {
    AfterKnows(cfg, id, job, seen, n);
  }

  /** One effect defines a domain only for a job that was cleared. */
  lemma DefinesWhenCleared(cfg: Config, id: nat, job: Job, l: Local, h: Host, d: string)
    requires Knows(cfg, job, l)
    ensures var h' := Advance(cfg, id, job, l, h).1;
            d in h'.domains ==> (d in h.domains && h'.domains[d] == h.domains[d])
                                || (h'.domains[d] == Domain(Dest(cfg, job), Some(id)) && Cleared(cfg, job)
                                    && !job.luck.created.NotCreated?)
  {
  }

  ghost predicate AllKnow(cfg: Config, jobs: seq<Job>, s: Sys) {
    && Shaped(jobs, s)
    && (forall j | 0 <= j < |jobs| :: Knows(cfg, jobs[j], s.locals[j]))
    && (forall d | d in s.host.domains && s.host.domains[d].writer.Some? ::
          var j := s.host.domains[d].writer.value;
          j < |jobs| && Cleared(cfg, jobs[j]) && !jobs[j].luck.created.NotCreated?)
  }

  lemma StepKnows(cfg: Config, jobs: seq<Job>, s: Sys, a: Action)
    requires AllKnow(cfg, jobs, s) && Enabled(cfg, jobs, s, a)
    ensures AllKnow(cfg, jobs, Step(cfg, jobs, s, a))
  {
    if a.Work? {
      AdvanceKnows(cfg, a.j, jobs[a.j], s.locals[a.j], s.host);
      forall d: string { DefinesWhenCleared(cfg, a.j, jobs[a.j], s.locals[a.j], s.host, d); }
    }
  }

  lemma {:induction false} RunKnows(cfg: Config, jobs: seq<Job>, s: Sys, acts: seq<Action>, s': Sys)
    requires AllKnow(cfg, jobs, s) && IsRun(cfg, jobs, s, acts, s')
    ensures AllKnow(cfg, jobs, s')
    decreases |acts|
  {
    if acts != [] {
      StepKnows(cfg, jobs, s, acts[0]);
      RunKnows(cfg, jobs, Step(cfg, jobs, s, acts[0]), acts[1..], s');
    }
  }

  /** In every interleaving, of any jobs, with any environment: every VM a deploy defined belongs to a
      job whose image was resized and registered and whose owner's quota the placed image kept; and
      every job that ended did so for the reason it reports. */
  lemma VMOnlyWhenCleared(cfg: Config, jobs: seq<Job>, h: Host, acts: seq<Action>, s: Sys)
    requires Fresh(h) && IsRun(cfg, jobs, Init(jobs, h), acts, s)
    ensures Shaped(jobs, s)
    ensures forall d | d in s.host.domains && s.host.domains[d].writer.Some? ::
              var j := s.host.domains[d].writer.value;
              && j < |jobs| && jobs[j].luck.placement.Placed? && jobs[j].luck.resized && jobs[j].luck.volumeFound
              && (jobs[j].owner == "" || jobs[j].luck.withinQuota)
    ensures forall j | 0 <= j < |jobs| && s.locals[j].stage.Ended? :: Means(cfg, jobs[j], s.locals[j].stage.o)
  {
    RunKnows(cfg, jobs, Init(jobs, h), acts, s);
    forall j | 0 <= j < |jobs| && s.locals[j].stage.Ended? ensures Means(cfg, jobs[j], s.locals[j].stage.o) {
      assert Knows(cfg, jobs[j], s.locals[j]);
    }
  }

  lemma OverQuotaStops(cfg: Config, jobs: seq<Job>, s: Sys, j: nat)
    requires AllKnow(cfg, jobs, s) && j < |jobs| && jobs[j].owner != "" && !jobs[j].luck.withinQuota
    ensures DomainsOf(s, j) == {}
    ensures s.locals[j].stage.Ended? ==>
              var o := s.locals[j].stage.o; !o.Completed? && !o.SeedFailed? && !o.CreateFailed?
  {
    assert Knows(cfg, jobs[j], s.locals[j]);
  }

  /** An owner over quota gets no VM in any interleaving, its job never ends as a success, and when the
      calls of its rollback are answered it leaves no image either. */
  lemma OverQuotaLeavesNothing(cfg: Config, jobs: seq<Job>, h: Host, acts: seq<Action>, s: Sys, j: nat)
    requires Fresh(h) && IsRun(cfg, jobs, Init(jobs, h), acts, s)
    requires j < |jobs| && jobs[j].owner != "" && !jobs[j].luck.withinQuota
    ensures Shaped(jobs, s) && DomainsOf(s, j) == {}
    ensures s.locals[j].stage.Ended? ==>
              var o := s.locals[j].stage.o; !o.Completed? && !o.SeedFailed? && !o.CreateFailed?
    ensures AllSafe(cfg, jobs) && InFlight(s, j) && s.locals[j].stage.Ended? && !s.locals[j].stage.o.Replaced?
            && !jobs[j].luck.placement.CopyStuck? && jobs[j].luck.removed && jobs[j].luck.cleanupStatted
            ==> FilesOf(s, j) == {}
  {
    RunKnows(cfg, jobs, Init(jobs, h), acts, s);
    OverQuotaStops(cfg, jobs, s, j);
    if AllSafe(cfg, jobs) && InFlight(s, j) && s.locals[j].stage.Ended? {
      ExitIsClean(cfg, jobs, h, acts, s, j);
    }
  }
}
