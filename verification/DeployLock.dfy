/** The per-name deploy lock of `Handler.acquireDeployLock`.

  A registry maps a VM name to a heap-allocated entry holding a mutex and a count of the
  threads registered on it (holding or queued).  Acquiring takes two atomic steps (register
  under the registry mutex, then lock the entry's mutex), and so does releasing (deregister
  and trim under the registry mutex, then unlock the entry's mutex).  Any number of threads
  interleave these steps.
*/
module DeployLock {
  import opened Wrappers

  /** An entry: the number of registered threads, and who holds its mutex. */
  datatype Entry = Entry(holders: int, mu: Option<nat>)

  /** Where a thread is.  `entry` is the identity of the entry whose mutex it captured. */
  datatype Pc =
    | Idle
    | Waiting(name: string, entry: nat)  // registered, blocked in mu.Lock()
    | Holding(name: string, entry: nat)  // acquireDeployLock has returned
    | Trimmed(name: string, entry: nat)  // the release has updated the registry, not yet unlocked

  datatype State = State(locks: map<string, nat>, entries: seq<Entry>, threads: seq<Pc>)

  datatype Action =
    | Register(t: nat, name: string)
    | Lock(t: nat)
    | Trim(t: nat)
    | Unlock(t: nat)

  ghost predicate WellScoped(s: State) {
    && (forall n | n in s.locks :: s.locks[n] < |s.entries|)
    && (forall t | 0 <= t < |s.threads| && !s.threads[t].Idle? :: s.threads[t].entry < |s.entries|)
  }

  ghost predicate Enabled(s: State, a: Action) {
    && WellScoped(s)
    && a.t < |s.threads|
    && match a
       case Register(t, _) => s.threads[t].Idle?
       case Lock(t) => s.threads[t].Waiting? && s.entries[s.threads[t].entry].mu.None?
       case Trim(t) => s.threads[t].Holding?
       case Unlock(t) => s.threads[t].Trimmed?
  }

  ghost function Step(s: State, a: Action): State
    requires Enabled(s, a)
  {
    match a
    case Register(t, n) =>
      var entries := if n in s.locks then s.entries else s.entries + [Entry(0, None)];
      var e := if n in s.locks then s.locks[n] else |s.entries|;
      State(s.locks[n := e],
            entries[e := Entry(entries[e].holders + 1, entries[e].mu)],
            s.threads[t := Waiting(n, e)])
    case Lock(t) =>
      var Waiting(n, e) := s.threads[t];
      s.(entries := s.entries[e := Entry(s.entries[e].holders, Some(t))], threads := s.threads[t := Holding(n, e)])
    case Trim(t) =>
      // The release looks the entry up again by name; it does not use the captured one.
      var Holding(n, captured) := s.threads[t];
      var threads := s.threads[t := Trimmed(n, captured)];
      if n !in s.locks then s.(threads := threads)
      else
        var e := s.locks[n];
        var left := s.entries[e].holders - 1;
        State(if left <= 0 then s.locks - {n} else s.locks,
              s.entries[e := Entry(left, s.entries[e].mu)],
              threads)
    case Unlock(t) =>
      var Trimmed(n, e) := s.threads[t];
      s.(entries := s.entries[e := Entry(s.entries[e].holders, None)], threads := s.threads[t := Idle])
  }

  ghost predicate IsRun(s: State, acts: seq<Action>, s': State)
    decreases |acts|
  {
    if acts == [] then s == s'
    else Enabled(s, acts[0]) && IsRun(Step(s, acts[0]), acts[1..], s')
  }

  lemma Before(s: State, a: Action, acts: seq<Action>, s': State)
    requires Enabled(s, a) && IsRun(Step(s, a), acts, s')
    ensures IsRun(s, [a] + acts, s')
  {
    assert ([a] + acts)[1..] == acts;
  }

  ghost function Init(threads: nat): State {
    State(map[], [], seq(threads, _ => Idle))
  }

  // ---- what is claimed of every reachable state ----

  ghost predicate Registered(p: Pc, n: string) {
    (p.Waiting? || p.Holding?) && p.name == n
  }

  ghost function RegisteredOn(s: State, n: string): set<nat> {
    set t: nat | t < |s.threads| && Registered(s.threads[t], n)
  }

  /** At most one thread is between the return of an acquire and its release, per name. */
  ghost predicate Exclusive(s: State) {
    forall t, u | 0 <= t < |s.threads| && 0 <= u < |s.threads| ::
      s.threads[t].Holding? && s.threads[u].Holding? && s.threads[t].name == s.threads[u].name ==> t == u
  }

  /** A name has an entry exactly when some thread is registered on it, and its count is exact. */
  ghost predicate NameExact(s: State, n: string) {
    && (n in s.locks <==> RegisteredOn(s, n) != {})
    && (n in s.locks ==> s.locks[n] < |s.entries| && s.entries[s.locks[n]].holders == |RegisteredOn(s, n)|)
  }

  /** A registered thread captured the very entry the registry has for its name. */
  ghost predicate CaptureExact(s: State, p: Pc) {
    p.Waiting? || p.Holding? ==> p.name in s.locks && s.locks[p.name] == p.entry
  }

  ghost predicate RegistryExact(s: State) {
    && (forall n :: NameExact(s, n))
    && (forall t | 0 <= t < |s.threads| :: CaptureExact(s, s.threads[t]))
  }

  /** An entry that is no longer in the registry has nobody queued on it. */
  ghost predicate RemovedEntriesUnused(s: State) {
    forall e: nat, t: nat | e < |s.entries| && t < |s.threads| && e !in s.locks.Values ::
      s.threads[t].Waiting? || s.threads[t].Holding? ==> s.threads[t].entry != e
  }

  ghost predicate AllIdle(s: State) {
    forall t | 0 <= t < |s.threads| :: s.threads[t].Idle?
  }

  // ---- the inductive invariant ----

  ghost predicate OwnsMutex(p: Pc, e: nat) {
    (p.Holding? || p.Trimmed?) && p.entry == e
  }

  ghost predicate MutexExact(s: State)
    requires WellScoped(s)
  {
    && (forall t: nat | t < |s.threads| && (s.threads[t].Holding? || s.threads[t].Trimmed?) ::
          s.entries[s.threads[t].entry].mu == Some(t))
    && (forall e: nat | e < |s.entries| && s.entries[e].mu.Some? ::
          s.entries[e].mu.value < |s.threads| && OwnsMutex(s.threads[s.entries[e].mu.value], e))
  }

  ghost predicate EntriesNotShared(s: State) {
    forall n, m | n in s.locks && m in s.locks && s.locks[n] == s.locks[m] :: n == m
  }

  ghost predicate Inv(s: State) {
    WellScoped(s) && RegistryExact(s) && MutexExact(s) && EntriesNotShared(s)
  }

  lemma OthersUnaffected(s: State, t: nat, p: Pc, n: string)
    requires t < |s.threads|
    ensures var s' := s.(threads := s.threads[t := p]);
            RegisteredOn(s', n) == if Registered(p, n) then RegisteredOn(s, n) + {t} else RegisteredOn(s, n) - {t}
  {
  }

  lemma RegisterCountsOthers(s: State, t: nat, name: string, n: string)
    requires Inv(s) && Enabled(s, Register(t, name)) && n != name
    ensures NameExact(Step(s, Register(t, name)), n)
  {
    var s' := Step(s, Register(t, name));
    assert NameExact(s, n);
    OthersUnaffected(s, t, s'.threads[t], n);
    assert RegisteredOn(s', n) == RegisteredOn(s, n);
    if n in s.locks {
      assert name in s.locks ==> s.locks[name] != s.locks[n];
      assert s'.entries[s.locks[n]] == s.entries[s.locks[n]];
    }
  }

  lemma RegisterCounts(s: State, t: nat, name: string)
    requires Inv(s) && Enabled(s, Register(t, name))
    ensures NameExact(Step(s, Register(t, name)), name)
  {
    var s' := Step(s, Register(t, name));
    assert NameExact(s, name);
    OthersUnaffected(s, t, s'.threads[t], name);
    assert t !in RegisteredOn(s, name);
    assert RegisteredOn(s', name) == RegisteredOn(s, name) + {t};
    assert |RegisteredOn(s', name)| == |RegisteredOn(s, name)| + 1;
  }

  lemma RegisterKeepsRegistry(s: State, t: nat, name: string)
    requires Inv(s) && Enabled(s, Register(t, name))
    ensures RegistryExact(Step(s, Register(t, name)))
  {
    var s' := Step(s, Register(t, name));
    forall n ensures NameExact(s', n) {
      if n == name { RegisterCounts(s, t, name); } else { RegisterCountsOthers(s, t, name, n); }
    }
    forall u | 0 <= u < |s'.threads| ensures CaptureExact(s', s'.threads[u]) {
      assert CaptureExact(s, s.threads[u]);
      if u != t && (s.threads[u].Waiting? || s.threads[u].Holding?) && s.threads[u].name == name {
        assert s'.locks[name] == s.locks[name];
      }
    }
  }

  lemma RegisterKeepsMutex(s: State, t: nat, name: string)
    requires Inv(s) && Enabled(s, Register(t, name))
    ensures WellScoped(Step(s, Register(t, name))) && MutexExact(Step(s, Register(t, name)))
  {
    var s' := Step(s, Register(t, name));
    forall e: nat | e < |s.entries| ensures s'.entries[e].mu == s.entries[e].mu {}
    forall u: nat | u < |s'.threads| && (s'.threads[u].Holding? || s'.threads[u].Trimmed?)
      ensures s'.entries[s'.threads[u].entry].mu == Some(u)
    {
      assert s'.threads[u] == s.threads[u];
    }
  }

  lemma RegisterKeepsInv(s: State, t: nat, name: string)
    requires Inv(s) && Enabled(s, Register(t, name))
    ensures Inv(Step(s, Register(t, name)))
  {
    RegisterKeepsRegistry(s, t, name);
    RegisterKeepsMutex(s, t, name);
  }

  /** Locking and unlocking change no registration and no count. */
  lemma SameRegistrations(s: State, s': State)
    requires RegistryExact(s)
    requires s'.locks == s.locks && |s'.entries| == |s.entries| && |s'.threads| == |s.threads|
    requires forall e | 0 <= e < |s.entries| :: s'.entries[e].holders == s.entries[e].holders
    requires forall t, n | 0 <= t < |s.threads| :: Registered(s'.threads[t], n) == Registered(s.threads[t], n)
    requires forall t | 0 <= t < |s.threads| && !s.threads[t].Idle? && !s'.threads[t].Idle? :: s'.threads[t].entry == s.threads[t].entry
    ensures RegistryExact(s')
  {
    forall n ensures NameExact(s', n) {
      assert NameExact(s, n);
      assert RegisteredOn(s', n) == RegisteredOn(s, n);
    }
    forall t | 0 <= t < |s'.threads| ensures CaptureExact(s', s'.threads[t]) {
      var p := s'.threads[t];
      assert CaptureExact(s, s.threads[t]);
      assert p.Waiting? || p.Holding? ==> Registered(p, p.name) && Registered(s.threads[t], p.name);
    }
  }

  lemma LockKeepsInv(s: State, t: nat)
    requires Inv(s) && Enabled(s, Lock(t))
    ensures Inv(Step(s, Lock(t)))
  {
    SameRegistrations(s, Step(s, Lock(t)));
  }

  lemma OneFewer(ts: set<nat>, t: nat)
    requires t in ts
    ensures |ts - {t}| == |ts| - 1 && (|ts| - 1 <= 0 <==> ts - {t} == {})
  {
    assert |ts - {t}| == 0 <==> ts - {t} == {};
  }

  /** The registry of one name before and after a trim of that name. */
  lemma TrimOwn(s: State, t: nat)
    requires Enabled(s, Trim(t)) && NameExact(s, s.threads[t].name)
    ensures NameExact(Step(s, Trim(t)), s.threads[t].name)
  {
    var s' := Step(s, Trim(t));
    var name := s.threads[t].name;
    assert t in RegisteredOn(s, name);
    OneFewer(RegisteredOn(s, name), t);
    OthersUnaffected(s, t, s'.threads[t], name);
    assert RegisteredOn(s', name) == RegisteredOn(s, name) - {t};
  }

  lemma TrimOther(s: State, t: nat, n: string)
    requires Enabled(s, Trim(t)) && NameExact(s, n) && n != s.threads[t].name
    requires n in s.locks && s.threads[t].name in s.locks ==> s.locks[n] != s.locks[s.threads[t].name]
    ensures NameExact(Step(s, Trim(t)), n)
  {
    var s' := Step(s, Trim(t));
    OthersUnaffected(s, t, s'.threads[t], n);
    assert RegisteredOn(s', n) == RegisteredOn(s, n);
  }

  lemma TrimCounts(s: State, t: nat, n: string)
    requires Inv(s) && Enabled(s, Trim(t))
    ensures NameExact(Step(s, Trim(t)), n)
  {
    assert NameExact(s, n);
    if n == s.threads[t].name { TrimOwn(s, t); } else { TrimOther(s, t, n); }
  }

  lemma TrimKeepsMutex(s: State, t: nat)
    requires Inv(s) && Enabled(s, Trim(t))
    ensures WellScoped(Step(s, Trim(t))) && MutexExact(Step(s, Trim(t)))
  {
  }

  lemma TrimKeepsInv(s: State, t: nat)
    requires Inv(s) && Enabled(s, Trim(t))
    ensures Inv(Step(s, Trim(t)))
  {
    var s' := Step(s, Trim(t));
    TrimKeepsMutex(s, t);
    forall n ensures NameExact(s', n) { TrimCounts(s, t, n); }
    forall u | 0 <= u < |s'.threads| ensures CaptureExact(s', s'.threads[u]) {
      var p := s'.threads[u];
      assert CaptureExact(s, s.threads[u]);
      if p.Waiting? || p.Holding? {
        assert u in RegisteredOn(s', p.name) && NameExact(s', p.name);
      }
    }
  }

  lemma UnlockKeepsInv(s: State, t: nat)
    requires Inv(s) && Enabled(s, Unlock(t))
    ensures Inv(Step(s, Unlock(t)))
  {
    SameRegistrations(s, Step(s, Unlock(t)));
  }

  lemma StepKeepsInv(s: State, a: Action)
    requires Inv(s) && Enabled(s, a)
    ensures Inv(Step(s, a))
  {
    match a
    case Register(t, n) => RegisterKeepsInv(s, t, n);
    case Lock(t) => LockKeepsInv(s, t);
    case Trim(t) => TrimKeepsInv(s, t);
    case Unlock(t) => UnlockKeepsInv(s, t);
  }

  lemma {:induction false} RunKeepsInv(s: State, acts: seq<Action>, s': State)
    requires Inv(s) && IsRun(s, acts, s')
    ensures Inv(s')
    decreases |acts|
  {
    if acts != [] {
      StepKeepsInv(s, acts[0]);
      RunKeepsInv(Step(s, acts[0]), acts[1..], s');
    }
  }

  lemma InitInv(threads: nat)
    ensures Inv(Init(threads))
  {
    forall n ensures NameExact(Init(threads), n) {
      assert RegisteredOn(Init(threads), n) == {};
    }
  }

  lemma InvImpliesExclusive(s: State)
    requires Inv(s)
    ensures Exclusive(s)
  {
  }

  lemma InvImpliesNoWaiterOnRemovedEntry(s: State)
    requires Inv(s)
    ensures RemovedEntriesUnused(s)
  {
  }

  lemma IdleMeansEmpty(s: State)
    requires Inv(s) && AllIdle(s)
    ensures s.locks == map[]
  {
    forall n ensures n !in s.locks {
      assert NameExact(s, n) && RegisteredOn(s, n) == {};
    }
  }

  /** Main result: for any number of threads, any names and any interleaving. */
  lemma LockDiscipline(threads: nat, acts: seq<Action>, s: State)
    requires IsRun(Init(threads), acts, s)
    ensures Exclusive(s) && RegistryExact(s) && RemovedEntriesUnused(s)
    ensures AllIdle(s) ==> s.locks == map[]
  {
    InitInv(threads);
    RunKeepsInv(Init(threads), acts, s);
    InvImpliesExclusive(s);
    InvImpliesNoWaiterOnRemovedEntry(s);
    if AllIdle(s) { IdleMeansEmpty(s); }
  }

  // ---- nobody is stranded ----

  /** Steps a thread still has to take before it is idle again. */
  ghost function StepsLeft(p: Pc): nat {
    match p case Idle => 0 case Waiting(_, _) => 3 case Holding(_, _) => 2 case Trimmed(_, _) => 1
  }

  ghost function Pending(threads: seq<Pc>): nat {
    if threads == [] then 0 else StepsLeft(threads[0]) + Pending(threads[1..])
  }

  lemma {:induction false} PendingUpdate(threads: seq<Pc>, t: nat, p: Pc)
    requires t < |threads|
    ensures Pending(threads[t := p]) == Pending(threads) - StepsLeft(threads[t]) + StepsLeft(p)
  {
    if t == 0 {
      assert threads[t := p][1..] == threads[1..];
    } else {
      assert threads[t := p][1..] == threads[1..][t - 1 := p];
      PendingUpdate(threads[1..], t - 1, p);
    }
  }

  /** While some thread is not idle, a step other than a new arrival can be taken: a waiter whose
      mutex is taken waits for a thread that can itself move. */
  lemma SomebodyCanMove(s: State, t: nat) returns (a: Action)
    requires Inv(s) && t < |s.threads| && !s.threads[t].Idle?
    ensures !a.Register? && Enabled(s, a)
    ensures a.t == t || (s.threads[t].Waiting? && s.entries[s.threads[t].entry].mu == Some(a.t))
  {
    var mover := match s.threads[t]
                 case Waiting(_, e) => (match s.entries[e].mu case None => t case Some(u) => u)
                 case _ => t;
    a := match s.threads[mover]
         case Waiting(_, _) => Lock(mover)
         case Holding(_, _) => Trim(mover)
         case _ => Unlock(mover);
  }

  /** Without new arrivals every run from a reachable state is finite, with a length known in
      advance, and one that cannot continue has released everything and emptied the registry. */
  lemma {:induction false} NobodyStranded(s: State, acts: seq<Action>, s': State)
    requires Inv(s) && IsRun(s, acts, s')
    requires forall i | 0 <= i < |acts| :: !acts[i].Register?
    ensures |acts| + Pending(s'.threads) == Pending(s.threads)
    ensures (forall a :: Enabled(s', a) ==> a.Register?) ==> AllIdle(s') && s'.locks == map[]
    decreases |acts|
  {
    if acts == [] {
      if forall a :: Enabled(s', a) ==> a.Register? {
        if t :| 0 <= t < |s'.threads| && !s'.threads[t].Idle? {
          var a := SomebodyCanMove(s', t);
          assert false;
        }
        IdleMeansEmpty(s');
      }
    } else {
      var a := acts[0];
      StepKeepsInv(s, a);
      PendingUpdate(s.threads, a.t, Step(s, a).threads[a.t]);
      NobodyStranded(Step(s, a), acts[1..], s');
    }
  }

  /** Two threads, the first of which has trimmed its entry for `name` and not unlocked it yet. */
  function Releasing(name: string): State {
    State(map[], [Entry(0, Some(0))], [Trimmed(name, 0), Idle])
  }

  lemma ReachReleasing(name: string, acts: seq<Action>, s: State)
    requires IsRun(Releasing(name), acts, s)
    ensures IsRun(Init(2), [Register(0, name)] + ([Lock(0)] + ([Trim(0)] + acts)), s)
  {
    var s1 := State(map[name := 0], [Entry(1, None)], [Waiting(name, 0), Idle]);
    var s2 := State(map[name := 0], [Entry(1, Some(0))], [Holding(name, 0), Idle]);
    assert Step(s2, Trim(0)) == Releasing(name) by { assert s2.locks - {name} == map[]; }
    Before(s2, Trim(0), acts, s);
    assert Step(s1, Lock(0)) == s2;
    Before(s1, Lock(0), [Trim(0)] + acts, s);
    assert Step(Init(2), Register(0, name)) == s1;
    Before(Init(2), Register(0, name), [Lock(0)] + ([Trim(0)] + acts), s);
  }

  lemma NewcomerHolds(name: string) returns (acts: seq<Action>, s: State)
    ensures IsRun(Releasing(name), acts, s)
    ensures s == State(map[name := 1], [Entry(0, Some(0)), Entry(1, Some(1))], [Trimmed(name, 0), Holding(name, 1)])
  {
    var s4 := State(map[name := 1], [Entry(0, Some(0)), Entry(1, None)], [Trimmed(name, 0), Waiting(name, 1)]);
    s := State(map[name := 1], [Entry(0, Some(0)), Entry(1, Some(1))], [Trimmed(name, 0), Holding(name, 1)]);
    assert Step(s4, Lock(1)) == s;
    Before(s4, Lock(1), [], s);
    assert Step(Releasing(name), Register(1, name)) == s4;
    Before(Releasing(name), Register(1, name), [Lock(1)] + [], s);
    acts := [Register(1, name)] + ([Lock(1)] + []);
  }

  /** Exclusion ends where the release starts.  Between trimming the registry and unlocking, the
      releasing thread still owns the old entry's mutex while a newcomer, given a fresh entry,
      may already hold the name. */
  lemma OldMutexMayOutliveTheName(name: string) returns (acts: seq<Action>, s: State)
    ensures IsRun(Init(2), acts, s)
    ensures |s.threads| == 2 && s.threads[0].Trimmed? && s.threads[1].Holding? && s.threads[0].name == s.threads[1].name == name
    ensures s.threads[0].entry != s.threads[1].entry
  {
    acts, s := NewcomerHolds(name);
    ReachReleasing(name, acts, s);
    acts := [Register(0, name)] + ([Lock(0)] + ([Trim(0)] + acts));
  }

  // ---- the registry as the program keeps it: a map of references to shared entries ----

  class DeployLockEntry {
    ghost const id: nat
    var holders: int
    var mu: Option<nat>

    constructor (ghost id: nat)
      ensures this.id == id && holders == 0 && mu == None
    {
      this.id := id;
      holders, mu := 0, None;
    }
  }

  class Handler {
    var deployLocks: map<string, DeployLockEntry>
    ghost var arena: seq<DeployLockEntry>  // every entry ever allocated, by identity
    ghost var threads: seq<Pc>

    ghost predicate Valid()
      reads this, arena
    {
      && (forall i | 0 <= i < |arena| :: arena[i].id == i)
      && (forall n | n in deployLocks :: deployLocks[n] in arena)
    }

    /** The heap read as a state of the transition system. */
    ghost function Abs(): State
      reads this, arena
    {
      State(map n | n in deployLocks :: deployLocks[n].id,
            seq(|arena|, i requires 0 <= i < |arena| reads this, arena => Entry(arena[i].holders, arena[i].mu)),
            threads)
    }

    constructor (ghost n: nat)
      ensures Valid() && Abs() == Init(n)
    {
      deployLocks, arena, threads := map[], [], seq(n, _ => Idle);
    }

    method FindOrCreate(name: string) returns (e: DeployLockEntry)
      requires Valid()
      modifies this
      ensures Valid() && e in arena && deployLocks == old(deployLocks)[name := e] && threads == old(threads)
      ensures name in old(deployLocks) ==> e == old(deployLocks)[name] && arena == old(arena)
      ensures name !in old(deployLocks) ==> fresh(e) && arena == old(arena) + [e] && e.holders == 0 && e.mu == None
    {
      if name in deployLocks {
        e := deployLocks[name];
      } else {
        e := new DeployLockEntry(|arena|);
        arena := arena + [e];
        deployLocks := deployLocks[name := e];
      }
    }

    /** First half of acquireDeployLock: find or create the entry, register, capture its mutex. */
    method RegisterOn(ghost t: nat, name: string) returns (e: DeployLockEntry)
      requires Valid() && Enabled(Abs(), Register(t, name))
      modifies this, arena
      ensures Valid() && Abs() == Step(old(Abs()), Register(t, name))
      ensures e in arena && threads[t] == Waiting(name, e.id)
    {
      ghost var before := Abs();
      e := FindOrCreate(name);
      ghost var created := Abs();
      assert created.entries == if name in before.locks then before.entries else before.entries + [Entry(0, None)];
      assert created.locks == before.locks[name := e.id];
      e.holders := e.holders + 1;
      threads := threads[t := Waiting(name, e.id)];
      assert Abs().locks == created.locks;
      assert Abs().entries == created.entries[e.id := Entry(created.entries[e.id].holders + 1, created.entries[e.id].mu)];
    }

    /** Second half of acquireDeployLock: lock the captured entry's mutex. */
    method LockEntry(t: nat, e: DeployLockEntry)
      requires Valid() && Enabled(Abs(), Lock(t)) && e in arena && threads[t].entry == e.id
      modifies this, arena
      ensures Valid() && Abs() == Step(old(Abs()), Lock(t))
    {
      ghost var before := Abs();
      e.mu := Some(t);
      threads := threads[t := Holding(threads[t].name, e.id)];
      assert Abs().entries == Step(before, Lock(t)).entries;
      assert Abs().locks == before.locks;
    }

    /** First half of the release closure: deregister by name and trim the entry at zero. */
    method TrimName(ghost t: nat, name: string)
      requires Valid() && Enabled(Abs(), Trim(t)) && threads[t].name == name
      modifies this, arena
      ensures Valid() && Abs() == Step(old(Abs()), Trim(t))
    {
      ghost var before := Abs();
      if name in deployLocks {
        var e := deployLocks[name];
        e.holders := e.holders - 1;
        if e.holders <= 0 {
          deployLocks := deployLocks - {name};
        }
      }
      threads := threads[t := Trimmed(name, threads[t].entry)];
      assert Abs().entries == Step(before, Trim(t)).entries;
      assert Abs().locks == Step(before, Trim(t)).locks;
    }

    /** Second half of the release closure: unlock the captured mutex. */
    method UnlockEntry(ghost t: nat, e: DeployLockEntry)
      requires Valid() && Enabled(Abs(), Unlock(t)) && e in arena && threads[t].entry == e.id
      modifies this, arena
      ensures Valid() && Abs() == Step(old(Abs()), Unlock(t))
    {
      ghost var before := Abs();
      e.mu := None;
      threads := threads[t := Idle];
      assert Abs().entries == Step(before, Unlock(t)).entries;
      assert Abs().locks == before.locks;
    }
  }
}
