/** Host package updates: two flags and a cache under one mutex, used by any number of concurrent get,
  refresh and upgrade requests.  Each mutex-protected section is one step; what a refresh or an
  upgrade does outside the mutex are steps of their own.
*/
module HostUpdates {
  import opened Wrappers

  /** A package list: the installed versions it was computed from, how many upgrades had finished by
      then, and whether it says that an upgrade is running. */
  datatype Summary = Summary(installed: int, epoch: nat, upgradeRunning: bool)

  /** What the mutex protects. */
  datatype Shared = Shared(upgrading: bool, refreshing: bool, cached: Option<Summary>, checked: int)

  datatype Pc =
    | Idle
    | Refreshing                 // flag set, the refresh command or the listing not done
    | Fetched(summary: Summary)  // listed, not stored yet
    | Leaving                    // stored or failed, flag not cleared yet
    | Upgrading

  datatype State = State(shared: Shared, installed: int, epoch: nat, now: int, threads: seq<Pc>)

  datatype Action =
    | Tick(seconds: nat)
    | Get(listOk: bool)
    | BeginRefresh(t: nat)
    | List(t: nat, ok: bool)
    | Store(t: nat)
    | EndRefresh(t: nat)
    | BeginUpgrade(t: nat)
    | Install(t: nat, version: int)
    | EndUpgrade(t: nat)

  const MAX_AGE := 60

  /** The list computed from the packages as they are. */
  function Listing(s: State): Summary {
    Summary(s.installed, s.epoch, s.shared.upgrading)
  }

  predicate Fresh(sh: Shared, now: int) {
    sh.cached.Some? && now - sh.checked < MAX_AGE
  }

  /** What a get answers, None being an error, and what it leaves behind. */
  function Answer(sh: Shared, now: int, listed: Option<Summary>): Option<Summary> {
    if Fresh(sh, now) then Some(sh.cached.value.(upgradeRunning := sh.upgrading)) else listed
  }

  function AfterGet(sh: Shared, now: int, listed: Option<Summary>): Shared {
    if Fresh(sh, now) then sh.(cached := Answer(sh, now, listed))
    else if listed.None? then sh
    else sh.(cached := listed, checked := now)
  }

  function Listed(s: State, ok: bool): Option<Summary> {
    if ok then Some(Listing(s)) else None
  }

  predicate Enabled(s: State, a: Action) {
    match a
    case Tick(_) => true
    case Get(_) => true
    case BeginRefresh(t) => t < |s.threads| && s.threads[t].Idle?
    case List(t, _) => t < |s.threads| && s.threads[t].Refreshing?
    case Store(t) => t < |s.threads| && s.threads[t].Fetched?
    case EndRefresh(t) => t < |s.threads| && s.threads[t].Leaving?
    case BeginUpgrade(t) => t < |s.threads| && s.threads[t].Idle?
    case Install(t, _) => t < |s.threads| && s.threads[t].Upgrading?
    case EndUpgrade(t) => t < |s.threads| && s.threads[t].Upgrading?
  }

  function Busy(sh: Shared): bool {
    sh.upgrading || sh.refreshing
  }

  function Step(s: State, a: Action): State
    requires Enabled(s, a)
  {
    match a
    case Tick(d) => s.(now := s.now + d)
    case Get(ok) => s.(shared := AfterGet(s.shared, s.now, Listed(s, ok)))
    case BeginRefresh(t) =>
      if Busy(s.shared) then s
      else s.(shared := s.shared.(refreshing := true), threads := s.threads[t := Refreshing])
    case List(t, ok) => s.(threads := s.threads[t := if ok then Fetched(Listing(s)) else Leaving])
    case Store(t) =>
      s.(shared := s.shared.(cached := Some(s.threads[t].summary), checked := s.now), threads := s.threads[t := Leaving])
    case EndRefresh(t) => s.(shared := s.shared.(refreshing := false), threads := s.threads[t := Idle])
    case BeginUpgrade(t) =>
      if Busy(s.shared) then s
      else s.(shared := s.shared.(upgrading := true), threads := s.threads[t := Upgrading])
    case Install(_, v) => s.(installed := v)
    case EndUpgrade(t) =>
      s.(shared := s.shared.(upgrading := false, cached := None), epoch := s.epoch + 1, threads := s.threads[t := Idle])
  }

  predicate Runs(s: State, run: seq<Action>)
    decreases |run|
  {
    run == [] || (Enabled(s, run[0]) && Runs(Step(s, run[0]), run[1..]))
  }

  function Run(s: State, run: seq<Action>): State
    requires Runs(s, run)
    decreases |run|
  {
    if run == [] then s else Run(Step(s, run[0]), run[1..])
  }

  predicate Init(s: State) {
    s.shared == Shared(false, false, None, s.shared.checked) && forall t | 0 <= t < |s.threads| :: s.threads[t].Idle?
  }

  // ---- the invariant ----

  predicate RefreshPhase(pc: Pc) {
    pc.Refreshing? || pc.Fetched? || pc.Leaving?
  }

  ghost predicate Exclusive(s: State) {
    && (s.shared.refreshing <==> exists t :: 0 <= t < |s.threads| && RefreshPhase(s.threads[t]))
    && (s.shared.upgrading <==> exists t :: 0 <= t < |s.threads| && s.threads[t].Upgrading?)
    && (forall t, u | 0 <= t < |s.threads| && 0 <= u < |s.threads| && !s.threads[t].Idle? && !s.threads[u].Idle? :: t == u)
  }

  predicate Current(s: State, sum: Summary) {
    sum.installed == s.installed && sum.epoch == s.epoch
  }

  ghost predicate CacheCurrent(s: State) {
    && (!s.shared.upgrading && s.shared.cached.Some? ==> Current(s, s.shared.cached.value))
    && (forall t | 0 <= t < |s.threads| && s.threads[t].Fetched? :: Current(s, s.threads[t].summary) && !s.threads[t].summary.upgradeRunning)
  }

  ghost predicate Inv(s: State) {
    Exclusive(s) && CacheCurrent(s)
  }

  lemma StepKeepsExclusive(s: State, a: Action)
    requires Exclusive(s) && Enabled(s, a)
    ensures Exclusive(Step(s, a))
  {
    var s' := Step(s, a);
    if s'.threads != s.threads {
      forall t | 0 <= t < |s.threads| ensures s'.threads[t] == if t == a.t then s'.threads[a.t] else s.threads[t] {}
    }
  }

  lemma StepKeepsCacheCurrent(s: State, a: Action)
    requires Inv(s) && Enabled(s, a)
    ensures CacheCurrent(Step(s, a))
  {
    if a.List? || a.Store? || a.EndRefresh? {
      assert RefreshPhase(s.threads[a.t]) && s.shared.refreshing;
      assert !s.shared.upgrading;
    }
    if a.Install? || a.EndUpgrade? {
      assert s.threads[a.t].Upgrading?;
    }
  }

  lemma {:induction false} RunKeepsInv(s: State, run: seq<Action>)
    requires Inv(s) && Runs(s, run)
    ensures Inv(Run(s, run))
    decreases |run|
  {
    if run != [] {
      StepKeepsExclusive(s, run[0]);
      StepKeepsCacheCurrent(s, run[0]);
      RunKeepsInv(Step(s, run[0]), run[1..]);
    }
  }

  // ---- main results ----

  /** In every run at most one refresh or upgrade is active, and the flags say which; when nobody is
      active both flags are down, so the next request is not turned away. */
  lemma WorkIsExclusive(s: State, run: seq<Action>)
    requires Init(s) && Runs(s, run)
    ensures Exclusive(Run(s, run))
    ensures (forall t | 0 <= t < |Run(s, run).threads| :: Run(s, run).threads[t].Idle?) <==> !Busy(Run(s, run).shared)
  {
    RunKeepsInv(s, run);
    var r := Run(s, run);
    forall t | 0 <= t < |r.threads| ensures RefreshPhase(r.threads[t]) || r.threads[t].Upgrading? || r.threads[t].Idle? {}
  }

  /** Whatever a get answers, its upgrade flag is right, and unless an upgrade is running the answer
      reflects the packages as they are, listed after the last upgrade finished. */
  lemma GetTellsTheTruth(s: State, run: seq<Action>, listOk: bool)
    requires Init(s) && Runs(s, run)
    ensures var r := Run(s, run);
            var answer := Answer(r.shared, r.now, Listed(r, listOk));
            answer.Some? ==>
              && answer.value.upgradeRunning == r.shared.upgrading
              && (!r.shared.upgrading ==> answer.value.installed == r.installed && answer.value.epoch == r.epoch)
  {
    RunKeepsInv(s, run);
  }

  /** A run of gets, with time passing. */
  predicate OnlyGets(run: seq<Action>) {
    forall a | a in run :: a.Get? || a.Tick?
  }

  /** The list is computed at most once a minute: while gets follow each other less than 60 seconds after
      it was computed, it is not computed again, whatever the package manager would say now. */
  lemma {:induction false} AtMostOnceAMinute(s: State, run: seq<Action>)
    requires Runs(s, run) && OnlyGets(run) && s.shared.cached.Some? && s.now >= s.shared.checked
    requires Run(s, run).now < s.shared.checked + 60
    ensures var r := Run(s, run);
            && s.now <= r.now && r.shared.checked == s.shared.checked && r.shared.cached.Some?
            && r.shared.cached.value.(upgradeRunning := s.shared.upgrading) == s.shared.cached.value.(upgradeRunning := s.shared.upgrading)
    decreases |run|
  {
    if run != [] {
      assert run[0] in run && forall a | a in run[1..] :: a in run;
      TimePasses(Step(s, run[0]), run[1..]);
      AtMostOnceAMinute(Step(s, run[0]), run[1..]);
    }
  }

  lemma {:induction false} TimePasses(s: State, run: seq<Action>)
    requires Runs(s, run)
    ensures s.now <= Run(s, run).now
    decreases |run|
  {
    if run != [] { TimePasses(Step(s, run[0]), run[1..]); }
  }

  /** A get 60 seconds after the last list, or later, computes it anew, and answers with an error and
      keeps what there was when that fails. */
  lemma ListedAgain(s: State, ok: bool)
    requires s.shared.cached.None? || s.now >= s.shared.checked + 60
    ensures var r := Step(s, Get(ok)).shared;
            var answer := Answer(s.shared, s.now, Listed(s, ok));
            if ok then answer == r.cached == Some(Summary(s.installed, s.epoch, s.shared.upgrading)) && r.checked == s.now
            else answer == None && r == s.shared
  {
  }

  // ---- the handlers' sections ----

  class Updates {
    var upgrading: bool
    var refreshing: bool
    var cached: Option<Summary>
    var checked: int

    constructor ()
      ensures Now() == Shared(false, false, None, 0)
    {
      upgrading, refreshing, cached, checked := false, false, None, 0;
    }

    function Now(): Shared
      reads this
    {
      Shared(upgrading, refreshing, cached, checked)
    }

    /** A get, under the mutex throughout; `listed` is what the package manager would say. */
    method Get(now: int, listed: Option<Summary>) returns (answer: Option<Summary>)
      modifies this
      ensures answer == Answer(old(Now()), now, listed) && Now() == AfterGet(old(Now()), now, listed)
    {
      if cached.Some? && now - checked < MAX_AGE {
        cached := Some(cached.value.(upgradeRunning := upgrading));
        return cached;
      }
      if listed.None? { return None; }
      cached := listed;
      checked := now;
      return listed;
    }

    /** A section as the action it performs on the state of the whole system. */
    ghost predicate Performs(before: State, a: Action)
      reads this
    {
      Enabled(before, a) && Now() == Step(before, a).shared
    }

    method BeginRefresh(ghost s: State, ghost t: nat) returns (ok: bool)
      requires Now() == s.shared && Enabled(s, Action.BeginRefresh(t))
      modifies this
      ensures Performs(s, Action.BeginRefresh(t)) && ok == !Busy(s.shared)
    {
      if upgrading { return false; }
      if refreshing { return false; }
      refreshing := true;
      return true;
    }

    method StoreListing(ghost s: State, ghost t: nat, summary: Summary, now: int)
      requires Now() == s.shared && now == s.now && t < |s.threads| && s.threads[t] == Fetched(summary)
      modifies this
      ensures Performs(s, Store(t))
    {
      cached := Some(summary);
      checked := now;
    }

    method EndRefresh(ghost s: State, ghost t: nat)
      requires Now() == s.shared && Enabled(s, Action.EndRefresh(t))
      modifies this
      ensures Performs(s, Action.EndRefresh(t))
    {
      refreshing := false;
    }

    method BeginUpgrade(ghost s: State, ghost t: nat) returns (ok: bool)
      requires Now() == s.shared && Enabled(s, Action.BeginUpgrade(t))
      modifies this
      ensures Performs(s, Action.BeginUpgrade(t)) && ok == !Busy(s.shared)
    {
      if upgrading { return false; }
      if refreshing { return false; }
      upgrading := true;
      return true;
    }

    method EndUpgrade(ghost s: State, ghost t: nat)
      requires Now() == s.shared && Enabled(s, Action.EndUpgrade(t))
      modifies this
      ensures Performs(s, Action.EndUpgrade(t))
    {
      upgrading := false;
      cached := None;
    }
  }
}
