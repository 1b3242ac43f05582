/** Takeover of a VM's serial console: the newest connection wins (`serialSessions` in `SerialProxy`).

  A connection swaps itself into the registry, closes whatever it displaced, serves, and on its way
  out deletes its own entry if it is still there before it closes its socket.  Any number of
  connections, to any number of VMs, interleave these steps.
*/
module SerialTakeover {
  import opened Wrappers

  datatype Phase =
    | New
    | Swapped(victim: Option<nat>)  // registered, the displaced session not closed yet
    | Serving
    | Left                          // its own entry compared and deleted, socket not closed yet
    | Gone

  /** `evictor` is the connection that closed this one. */
  datatype Conn = Conn(vm: string, phase: Phase, socketOpen: bool, evictor: Option<nat>, evictions: nat)

  /** `order` keeps, per VM, the connections in the order they swapped in. */
  datatype State = State(sessions: map<string, nat>, conns: seq<Conn>, order: map<string, seq<nat>>)

  datatype Action =
    | Swap(c: nat)
    | Evict(c: nat)
    | Leave(c: nat)
    | Close(c: nat)

  predicate Enabled(s: State, a: Action) {
    && a.c < |s.conns|
    && match a
       case Swap(c) => s.conns[c].phase.New?
       case Evict(c) => s.conns[c].phase.Swapped? && (s.conns[c].phase.victim.Some? ==> s.conns[c].phase.victim.value < |s.conns|)
       case Leave(c) => s.conns[c].phase.Serving?
       case Close(c) => s.conns[c].phase.Left?
  }

  function Order(s: State, vm: string): seq<nat> {
    if vm in s.order then s.order[vm] else []
  }

  function Registered(s: State, vm: string): Option<nat> {
    if vm in s.sessions then Some(s.sessions[vm]) else None
  }

  function Moved(conns: seq<Conn>, c: nat, p: Phase): seq<Conn>
    requires c < |conns|
  {
    conns[c := conns[c].(phase := p)]
  }

  function Struck(conns: seq<Conn>, victim: nat, evictor: nat): seq<Conn>
    requires victim < |conns|
  {
    conns[victim := conns[victim].(socketOpen := false, evictor := Some(evictor), evictions := conns[victim].evictions + 1)]
  }

  function Step(s: State, a: Action): State
    requires Enabled(s, a)
  {
    var c := a.c;
    var vm := s.conns[c].vm;
    match a
    case Swap(_) =>
      State(s.sessions[vm := c], Moved(s.conns, c, Swapped(Registered(s, vm))), s.order[vm := Order(s, vm) + [c]])
    case Evict(_) =>
      var v := s.conns[c].phase.victim;
      s.(conns := if v.None? then Moved(s.conns, c, Serving) else Struck(Moved(s.conns, c, Serving), v.value, c))
    case Leave(_) =>
      State(if Registered(s, vm) == Some(c) then s.sessions - {vm} else s.sessions, Moved(s.conns, c, Left), s.order)
    case Close(_) =>
      s.(conns := s.conns[c := s.conns[c].(phase := Gone, socketOpen := false)])
  }

  predicate Runs(s: State, run: seq<Action>)
    decreases |run|
  {
    run == [] || (Enabled(s, run[0]) && Runs(Step(s, run[0]), run[1..]))
  }

  function Run(s: State, run: seq<Action>): State
    requires Runs(s, run)
    decreases |run|
  {
    if run == [] then s else Run(Step(s, run[0]), run[1..])
  }

  predicate Fresh(c: Conn) {
    c.phase.New? && c.evictor.None? && c.evictions == 0
  }

  predicate Init(s: State) {
    s.sessions == map[] && s.order == map[] && forall c | 0 <= c < |s.conns| :: Fresh(s.conns[c])
  }

  // ---- the invariant ----

  predicate Departed(c: Conn) {
    c.phase.Left? || c.phase.Gone?
  }

  /** The order lists exactly the connections that have swapped in, each once. */
  ghost predicate Listed(s: State) {
    && (forall vm, k | 0 <= k < |Order(s, vm)| ::
          Order(s, vm)[k] < |s.conns| && s.conns[Order(s, vm)[k]].vm == vm && !s.conns[Order(s, vm)[k]].phase.New?)
    && (forall vm, k, l | 0 <= k < l < |Order(s, vm)| :: Order(s, vm)[k] != Order(s, vm)[l])
    && (forall c | 0 <= c < |s.conns| && !s.conns[c].phase.New? :: c in Order(s, s.conns[c].vm))
  }

  /** The registered session is the last to have swapped in, and has not departed. */
  ghost predicate LatestWins(s: State, vm: string) {
    var h := Order(s, vm);
    if vm in s.sessions then h != [] && s.sessions[vm] == h[|h| - 1] && h[|h| - 1] < |s.conns| && !Departed(s.conns[h[|h| - 1]])
    else h != [] ==> h[|h| - 1] < |s.conns| && Departed(s.conns[h[|h| - 1]])
  }

  /** How the `k`-th session relates to its neighbours. */
  ghost predicate Chained(s: State, vm: string, k: nat)
    requires k < |Order(s, vm)|
  {
    var h := Order(s, vm);
    h[k] < |s.conns| &&
    var c := s.conns[h[k]];
    && (c.phase.Swapped? && c.phase.victim.Some? ==> k > 0 && c.phase.victim.value == h[k - 1])
    && c.evictions == (if c.evictor.Some? then 1 else 0)
    && (c.evictor.Some? ==> k + 1 < |h| && c.evictor.value == h[k + 1] && !c.socketOpen)
    && (k + 1 < |h| ==>
          h[k + 1] < |s.conns| &&
          var next := s.conns[h[k + 1]];
          && (next.phase.Swapped? ==> c.evictor.None?)
          && (Departed(c) || c.evictor.Some? || next.phase == Swapped(Some(h[k]))))
  }

  ghost predicate AllChained(s: State) {
    forall vm, k | 0 <= k < |Order(s, vm)| :: Chained(s, vm, k)
  }

  ghost predicate NewUntouched(s: State) {
    forall c | 0 <= c < |s.conns| && s.conns[c].phase.New? :: Fresh(s.conns[c])
  }

  ghost predicate Inv(s: State) {
    && Listed(s) && AllChained(s) && NewUntouched(s)
    && (forall vm :: LatestWins(s, vm))
    && (forall vm | vm in s.sessions :: s.sessions[vm] < |s.conns|)
  }

  // ---- one step ----

  lemma SwapKeepsListed(s: State, c: nat)
    requires Listed(s) && Enabled(s, Swap(c))
    ensures Listed(Step(s, Swap(c)))
  {
    var s' := Step(s, Swap(c));
    var vm := s.conns[c].vm;
    assert Order(s', vm) == Order(s, vm) + [c];
    assert forall v | v != vm :: Order(s', v) == Order(s, v);
    assert c !in Order(s, vm);
    forall d | 0 <= d < |s'.conns| && !s'.conns[d].phase.New? ensures d in Order(s', s'.conns[d].vm) {
      if d == c { assert Order(s', vm)[|Order(s, vm)|] == c; }
    }
  }

  lemma StepKeepsListed(s: State, a: Action)
    requires Inv(s) && Enabled(s, a)
    ensures Listed(Step(s, a))
  {
    if a.Swap? {
      SwapKeepsListed(s, a.c);
    } else {
      var s' := Step(s, a);
      assert forall v :: Order(s', v) == Order(s, v);
      if a.Evict? && s.conns[a.c].phase.victim.Some? { var k := VictimBefore(s, a.c); }
      assert forall d | 0 <= d < |s.conns| :: s'.conns[d].vm == s.conns[d].vm && (s'.conns[d].phase.New? <==> s.conns[d].phase.New?);
    }
  }

  /** A pending victim is the session just before, and was not evicted yet. */
  lemma VictimBefore(s: State, c: nat) returns (k: nat)
    requires Inv(s) && c < |s.conns| && s.conns[c].phase.Swapped? && s.conns[c].phase.victim.Some?
    ensures var h := Order(s, s.conns[c].vm);
            k + 1 < |h| && h[k + 1] == c && s.conns[c].phase.victim == Some(h[k]) && h[k] < |s.conns| && h[k] != c
    ensures var v := s.conns[c].phase.victim.value; s.conns[v].evictor.None? && !s.conns[v].phase.New? && s.conns[v].vm == s.conns[c].vm
  {
    var h := Order(s, s.conns[c].vm);
    assert c in h;
    var j :| 0 <= j < |h| && h[j] == c;
    assert Chained(s, s.conns[c].vm, j);
    k := j - 1;
    assert Chained(s, s.conns[c].vm, k);
  }

  lemma SwapOrders(s: State, c: nat, v: string)
    requires Enabled(s, Swap(c))
    ensures Order(Step(s, Swap(c)), v) == Order(s, v) + if v == s.conns[c].vm then [c] else []
  {
  }

  /** The newcomer is chained to the one it displaced. */
  lemma NewcomerChained(s: State, vm: string, h: seq<nat>, c: nat, victim: Option<nat>)
    requires Order(s, vm) == h + [c] && c < |s.conns| && s.conns[c].phase == Swapped(victim)
    requires s.conns[c].evictor.None? && s.conns[c].evictions == 0
    requires victim.Some? ==> h != [] && victim.value == h[|h| - 1]
    ensures Chained(s, vm, |h|)
  {
  }

  /** The one it follows is chained to it: displaced just now, or departed before. */
  lemma FormerChained(s: State, s': State, vm: string, c: nat, k: nat)
    requires k + 1 == |Order(s, vm)| && Chained(s, vm, k) && LatestWins(s, vm)
    requires Order(s', vm) == Order(s, vm) + [c] && |s'.conns| == |s.conns| && c < |s.conns|
    requires s'.conns[Order(s, vm)[k]] == s.conns[Order(s, vm)[k]] && s'.conns[c].phase == Swapped(Registered(s, vm))
    ensures Chained(s', vm, k)
  {
  }

  /** What a swap does to the newcomer, and to everybody else. */
  lemma SwapMoves(s: State, c: nat)
    requires Inv(s) && Enabled(s, Swap(c))
    ensures var s' := Step(s, Swap(c));
            && |s'.conns| == |s.conns| && s'.conns[c] == s.conns[c].(phase := Swapped(Registered(s, s.conns[c].vm)))
            && (forall d | 0 <= d < |s.conns| && d != c :: s'.conns[d] == s.conns[d])
    ensures Fresh(s.conns[c]) && LatestWins(s, s.conns[c].vm)
  {
  }

  lemma ListedIsOld(s: State, c: nat, v: string, k: nat)
    requires Listed(s) && c < |s.conns| && s.conns[c].phase.New? && k < |Order(s, v)|
    ensures Order(s, v)[k] < |s.conns| && Order(s, v)[k] != c
  {
    assert !s.conns[Order(s, v)[k]].phase.New?;
  }

  /** The newcomer, and the one it follows. */
  lemma SwapChainsLast(s: State, c: nat, k: nat)
    requires Inv(s) && Enabled(s, Swap(c)) && k <= |Order(s, s.conns[c].vm)| <= k + 1
    ensures var s' := Step(s, Swap(c)); k < |Order(s', s.conns[c].vm)| && Chained(s', s.conns[c].vm, k)
  {
    var vm, s' := s.conns[c].vm, Step(s, Swap(c));
    SwapOrders(s, c, vm);
    SwapMoves(s, c);
    if k == |Order(s, vm)| {
      NewcomerChained(s', vm, Order(s, vm), c, Registered(s, vm));
    } else {
      ListedIsOld(s, c, vm, k);
      assert Chained(s, vm, k);
      FormerChained(s, s', vm, c, k);
    }
  }

  lemma SwapKeepsChained(s: State, c: nat)
    requires Inv(s) && Enabled(s, Swap(c))
    ensures AllChained(Step(s, Swap(c)))
  {
    var s' := Step(s, Swap(c));
    forall v, k | 0 <= k < |Order(s', v)| ensures Chained(s', v, k) {
      SwapOrders(s, c, v);
      if v == s.conns[c].vm && k + 1 >= |Order(s, v)| {
        SwapChainsLast(s, c, k);
      } else {
        SwapChainsOthers(s, c, v, k);
      }
    }
  }

  /** Neighbours that a step does not touch stay chained, wherever the order grows. */
  lemma NeighboursChained(s: State, s': State, v: string, k: nat)
    requires k < |Order(s, v)| && Order(s, v) <= Order(s', v) && Chained(s, v, k) && |s'.conns| == |s.conns|
    requires k + 1 < |Order(s, v)| || Order(s', v) == Order(s, v)
    requires s'.conns[Order(s, v)[k]] == s.conns[Order(s, v)[k]]
    requires k + 1 < |Order(s, v)| ==> s'.conns[Order(s, v)[k + 1]] == s.conns[Order(s, v)[k + 1]]
    ensures Chained(s', v, k)
  {
  }

  lemma SwapChainsOthers(s: State, c: nat, v: string, k: nat)
    requires Inv(s) && Enabled(s, Swap(c)) && k < |Order(s, v)|
    requires v == s.conns[c].vm ==> k + 1 < |Order(s, v)|
    ensures var s' := Step(s, Swap(c)); k < |Order(s', v)| && Chained(s', v, k)
  {
    SwapOrders(s, c, v);
    SwapMoves(s, c);
    ListedIsOld(s, c, v, k);
    if k + 1 < |Order(s, v)| { ListedIsOld(s, c, v, k + 1); }
    assert Chained(s, v, k);
    NeighboursChained(s, Step(s, Swap(c)), v, k);
  }

  lemma EvictKeepsChained(s: State, c: nat)
    requires Inv(s) && Enabled(s, Evict(c))
    ensures AllChained(Step(s, Evict(c)))
  {
    var s' := Step(s, Evict(c));
    var vm := s.conns[c].vm;
    var victim := s.conns[c].phase.victim;
    assert forall v :: Order(s', v) == Order(s, v);
    if victim.Some? { var k0 := VictimBefore(s, c); }
    forall v, k | 0 <= k < |Order(s', v)| ensures Chained(s', v, k) {
      EvictChain(s, c, v, k);
    }
  }

  lemma EvictChain(s: State, c: nat, v: string, k: nat)
    requires Inv(s) && Enabled(s, Evict(c)) && k < |Order(s, v)|
    ensures Chained(Step(s, Evict(c)), v, k)
  {
    var h := Order(s, v);
    var s' := Step(s, Evict(c));
    assert Chained(s, v, k) && s.conns[h[k]].vm == v;
    if k + 1 < |h| { assert s.conns[h[k + 1]].vm == v && Chained(s, v, k + 1); }
    if s.conns[c].phase.victim.Some? {
      var k0 := VictimBefore(s, c);
      if v == s.conns[c].vm {
        EvictChainHere(s, c, k0, k);
      } else {
        NeighboursChained(s, s', v, k);
      }
    }
  }

  lemma EvictChainHere(s: State, c: nat, k0: nat, k: nat)
    requires Inv(s) && Enabled(s, Evict(c)) && s.conns[c].phase.victim.Some?
    requires var h := Order(s, s.conns[c].vm);
             && k < |h| && k0 + 1 < |h| && h[k0 + 1] == c && s.conns[c].phase.victim == Some(h[k0]) && h[k0] < |s.conns|
             && s.conns[h[k0]].evictor.None? && Chained(s, s.conns[c].vm, k) && (k + 1 < |h| ==> Chained(s, s.conns[c].vm, k + 1))
    ensures Chained(Step(s, Evict(c)), s.conns[c].vm, k)
  {
    var h := Order(s, s.conns[c].vm);
    if k != k0 { assert h[k] != h[k0]; }
    if k != k0 + 1 { assert h[k] != h[k0 + 1]; }
    if k + 1 < |h| {
      if k + 1 != k0 + 1 { assert h[k + 1] != h[k0 + 1]; }
      if k + 1 != k0 { assert h[k + 1] != h[k0]; }
    }
  }

  lemma LeaveKeepsChained(s: State, c: nat)
    requires Inv(s) && Enabled(s, Leave(c))
    ensures AllChained(Step(s, Leave(c)))
  {
    var s' := Step(s, Leave(c));
    assert forall v :: Order(s', v) == Order(s, v);
    forall v, k | 0 <= k < |Order(s', v)| ensures Chained(s', v, k) {
      assert Chained(s, v, k);
    }
  }

  lemma CloseKeepsChained(s: State, c: nat)
    requires Inv(s) && Enabled(s, Close(c))
    ensures AllChained(Step(s, Close(c)))
  {
    var s' := Step(s, Close(c));
    assert forall v :: Order(s', v) == Order(s, v);
    forall v, k | 0 <= k < |Order(s', v)| ensures Chained(s', v, k) {
      assert Chained(s, v, k);
    }
  }

  lemma SwapKeepsLatest(s: State, c: nat, v: string)
    requires Inv(s) && Enabled(s, Swap(c))
    ensures LatestWins(Step(s, Swap(c)), v)
  {
    var s' := Step(s, Swap(c));
    var vm := s.conns[c].vm;
    assert Order(s', vm) == Order(s, vm) + [c];
    if v != vm {
      assert Order(s', v) == Order(s, v) && LatestWins(s, v);
      LastHasItsVM(s, v);
    }
  }

  lemma LastHasItsVM(s: State, v: string)
    requires Listed(s)
    ensures var h := Order(s, v);
            h != [] ==> h[|h| - 1] < |s.conns| && s.conns[h[|h| - 1]].vm == v && !s.conns[h[|h| - 1]].phase.New?
  {
    var h := Order(s, v);
    if h != [] { assert s.conns[h[|h| - 1]].vm == v; }
  }

  /** Evicting and closing change nobody's registration and nobody's departure. */
  lemma QuietKeepsLatest(s: State, s': State, v: string)
    requires LatestWins(s, v) && s'.sessions == s.sessions && s'.order == s.order && |s'.conns| == |s.conns|
    requires forall d | 0 <= d < |s.conns| :: Departed(s'.conns[d]) <==> Departed(s.conns[d])
    ensures LatestWins(s', v)
  {
    assert Order(s', v) == Order(s, v);
  }

  lemma LeaveKeepsLatest(s: State, c: nat, v: string)
    requires Inv(s) && Enabled(s, Leave(c))
    ensures LatestWins(Step(s, Leave(c)), v)
  {
    var s' := Step(s, Leave(c));
    assert Order(s', v) == Order(s, v) && LatestWins(s, v);
    LastHasItsVM(s, v);
  }

  lemma StepKeepsLatest(s: State, a: Action, v: string)
    requires Inv(s) && Enabled(s, a)
    ensures LatestWins(Step(s, a), v)
  {
    if a.Swap? {
      SwapKeepsLatest(s, a.c, v);
    } else if a.Leave? {
      LeaveKeepsLatest(s, a.c, v);
    } else {
      assert LatestWins(s, v);
      if a.Evict? && s.conns[a.c].phase.victim.Some? { var k := VictimBefore(s, a.c); }
      QuietKeepsLatest(s, Step(s, a), v);
    }
  }

  lemma StepKeepsInv(s: State, a: Action)
    requires Inv(s) && Enabled(s, a)
    ensures Inv(Step(s, a))
  {
    var s' := Step(s, a);
    StepKeepsListed(s, a);
    forall v ensures LatestWins(s', v) { StepKeepsLatest(s, a, v); }
    match a {
      case Swap(c) => SwapKeepsChained(s, c);
      case Evict(c) =>
        EvictKeepsChained(s, c);
        if s.conns[c].phase.victim.Some? { var k := VictimBefore(s, c); }
      case Leave(c) => LeaveKeepsChained(s, c);
      case Close(c) => CloseKeepsChained(s, c);
    }
  }

  lemma {:induction false} RunKeepsInv(s: State, run: seq<Action>)
    requires Inv(s) && Runs(s, run)
    ensures Inv(Run(s, run))
    decreases |run|
  {
    if run != [] {
      StepKeepsInv(s, run[0]);
      RunKeepsInv(Step(s, run[0]), run[1..]);
    }
  }

  lemma InitInv(s: State)
    requires Init(s)
    ensures Inv(s)
  {
    assert forall v :: Order(s, v) == [];
  }

  // ---- main results ----

  /** The `k`-th session has departed, was closed by the next one, or is the next one's pending victim. */
  ghost predicate Superseded(s: State, h: seq<nat>, k: nat)
    requires k + 1 < |h|
  {
    h[k] < |s.conns| && h[k + 1] < |s.conns| &&
    var c := s.conns[h[k]];
    Departed(c) || (c.evictor == Some(h[k + 1]) && !c.socketOpen) || s.conns[h[k + 1]].phase == Swapped(Some(h[k]))
  }

  /** In every run, the registered session is the latest to have swapped in and has not departed; every
      earlier one has departed, or was closed by its successor, or is about to be: the successor has
      swapped in and not closed it yet. */
  lemma NewestViewerWins(s: State, run: seq<Action>, vm: string)
    requires Init(s) && Runs(s, run)
    ensures LatestWins(Run(s, run), vm)
    ensures var r := Run(s, run);
            var h := Order(r, vm);
            forall k | 0 <= k < |h| - 1 :: Superseded(r, h, k)
  {
    InitInv(s);
    RunKeepsInv(s, run);
    var r := Run(s, run);
    forall k | 0 <= k < |Order(r, vm)| - 1 ensures Superseded(r, Order(r, vm), k) {
      assert Chained(r, vm, k);
    }
  }

  predicate Adjacent(h: seq<nat>, k: nat, c: nat, d: nat) {
    k + 1 < |h| && h[k] == c && h[k + 1] == d
  }

  /** Every session is evicted at most once, and only by the session that swapped in right after it. */
  lemma EvictedOnceBySuccessor(s: State, run: seq<Action>, c: nat)
    requires Init(s) && Runs(s, run) && c < |Run(s, run).conns|
    ensures var r := Run(s, run);
            && r.conns[c].evictions <= 1 && (r.conns[c].evictions == 1 <==> r.conns[c].evictor.Some?)
            && (r.conns[c].evictor.Some? ==>
                  exists k: nat :: Adjacent(Order(r, r.conns[c].vm), k, c, r.conns[c].evictor.value))
  {
    InitInv(s);
    RunKeepsInv(s, run);
    var r := Run(s, run);
    if !r.conns[c].phase.New? {
      var h := Order(r, r.conns[c].vm);
      assert c in h;
      var k :| 0 <= k < |h| && h[k] == c;
      assert Chained(r, r.conns[c].vm, k);
      if r.conns[c].evictor.Some? { assert Adjacent(h, k, c, r.conns[c].evictor.value); }
    }
  }

  /** A departing session leaves every other registration alone. */
  lemma LeavingIsPrivate(s: State, c: nat, vm: string)
    requires Enabled(s, Leave(c)) && Registered(s, vm) != Some(c)
    ensures Registered(Step(s, Leave(c)), vm) == Registered(s, vm)
  {
  }

  // ---- the registry ----

  class SerialSessions {
    var sessions: map<string, nat>

    constructor ()
      ensures sessions == map[]
    {
      sessions := map[];
    }

    method Swap(ghost s: State, id: string, c: nat) returns (displaced: Option<nat>)
      requires sessions == s.sessions && Enabled(s, Action.Swap(c)) && s.conns[c].vm == id
      modifies this
      ensures sessions == Step(s, Action.Swap(c)).sessions
      ensures Step(s, Action.Swap(c)).conns[c].phase == Swapped(displaced)
    {
      displaced := if id in sessions then Some(sessions[id]) else None;
      sessions := sessions[id := c];
    }

    method CompareAndDelete(ghost s: State, id: string, c: nat)
      requires sessions == s.sessions && Enabled(s, Leave(c)) && s.conns[c].vm == id
      modifies this
      ensures sessions == Step(s, Leave(c)).sessions
    {
      if id in sessions && sessions[id] == c {
        sessions := sessions - {id};
      }
    }
  }
}
