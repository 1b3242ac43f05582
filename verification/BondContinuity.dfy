/** Whether the bridge keeps an uplink after every single command of a creation: while the members
  move, whatever commands fail, and while a failed creation is rolled back. */
module BondContinuity {
  import opened HostBond
  import opened BondOrdering

  ghost predicate Carries(n: Net, bond: string, target: string, p: string) {
    p in n.up && (MasterOf(n, p) == target || (MasterOf(n, p) == bond && MasterOf(n, bond) == target && bond in n.up))
  }

  /** Some physical link carries the bridge's traffic, directly or through the bond. */
  ghost predicate Uplinked(n: Net, phys: set<string>, bond: string, target: string) {
    exists p :: p in phys && Carries(n, bond, target, p)
  }

  ghost predicate NeverCutOff(log: seq<Net>, phys: set<string>, bond: string, target: string) {
    forall n | n in log :: Uplinked(n, phys, bond, target)
  }

  /** An attached link that is up. */
  ghost predicate Attached(net: Net, phys: set<string>, req: Request, p: string) {
    p in phys && MasterOf(net, p) == req.target && p in net.up
  }

  /** The circumstances of a creation: a request for a bridge that is connected, some attached link
      being up. */
  ghost predicate Connected(net: Net, phys: set<string>, req: Request) {
    && WellFormed(net) && req.name !in net.links && req.name != "" && req.target in net.links && req.target != "" && req.name !in phys
    && (forall x | x in req.ifaces :: x in net.links && x in phys) && req.ifaces != []
    && (exists p :: Attached(net, phys, req, p))
  }

  lemma {:induction false} CutOffConcat(a: seq<Net>, b: seq<Net>, phys: set<string>, bond: string, target: string)
    ensures NeverCutOff(a + b, phys, bond, target) <==> NeverCutOff(a, phys, bond, target) && NeverCutOff(b, phys, bond, target)
  {
    assert forall n | n in a :: n in a + b;
    assert forall n | n in b :: n in a + b;
  }

  /** Steps that do not name a link leave it alone, whichever of them fail. */
  lemma {:induction false} StepsLeaveAlone(luck: Luck, t: nat, net: Net, steps: seq<Step>, x: string)
    requires LeavesAlone(steps, x)
    ensures Same(net, Steps(luck, t, net, steps).net, x)
    ensures forall n | n in Steps(luck, t, net, steps).log :: Same(net, n, x)
    decreases |steps|
  {
    if steps != [] {
      var next := Attempt(luck, t, net, steps[0].cmd);
      assert forall s | s in steps[1..] :: s in steps;
      StepsLeaveAlone(luck, t + 1, next, steps[1..], x);
      assert Same(net, next, x);
    }
  }

  // ---- the members move ----

  function Added(net: Net, req: Request): Net
    requires req.ifaces != []
  {
    Apply(net, AddBond(req.name, PrimaryArg(net, req)))
  }

  /** The forward commands, issued once the bond has been added at tick `t`. */
  function Moving(luck: Luck, t: nat, net: Net, req: Request): Outcome
    requires req.ifaces != []
  {
    Steps(luck, t + 1, Added(net, req), Forward(PrevMasters(net, req.ifaces), req))
  }

  /** Their part that raises the bond and enslaves the members that are not attached. */
  function Prepared(luck: Luck, t: nat, net: Net, req: Request): Outcome
    requires req.ifaces != []
  {
    Steps(luck, t + 1, Added(net, req), RaiseSteps(req) + EnslaveAll(Secs(net, req), req.name))
  }

  /** An attached link that is up and not enslaved. */
  ghost predicate Stays(net: Net, phys: set<string>, req: Request) {
    exists p :: Attached(net, phys, req, p) && p !in Order(net, req)
  }

  ghost predicate SecondaryUp(mid: Net, secs: seq<string>) {
    exists s :: s in secs && s in mid.up
  }

  /** If the uplink comes to be taken off the bridge or down, some enslaved secondary is up by then. */
  ghost predicate SafelyMoved(luck: Luck, t: nat, net: Net, req: Request)
    requires req.ifaces != []
  {
    var mid := Prepared(luck, t, net, req);
    mid.ok && (luck(mid.t) || luck(mid.t + 2)) ==> SecondaryUp(mid.net, Secs(net, req))
  }

  lemma EnslaveRun(luck: Luck, t: nat, n: Net, x: string, bond: string)
    ensures var n1 := Attempt(luck, t, n, NoMaster(x));
            var n3 := Attempt(luck, t + 2, n1, Down(x));
            var n4 := Apply(n3, Master(x, bond));
            var n5 := Attempt(luck, t + 4, n4, Up(x));
            Steps(luck, t, n, Enslave(x, bond)) ==
              if luck(t + 3) then Outcome(n5, t + 5, true, [n1, n1, n3, n4, n5])
              else Outcome(n3, t + 4, false, [n1, n1, n3, n3])
  {
    var s := Enslave(x, bond);
    var n1 := Attempt(luck, t, n, NoMaster(x));
    var n3 := Attempt(luck, t + 2, n1, Down(x));
    LastTwoOfEnslave(luck, t + 3, n3, x, bond);
    var last := Steps(luck, t + 3, n3, [s[3], s[4]]);
    assert s[1..][1..][1..] == [s[3], s[4]];
    assert Steps(luck, t + 2, n1, s[1..][1..]) == last.(log := [n3] + last.log);
    assert Steps(luck, t + 1, n1, s[1..]) == last.(log := [n1] + ([n3] + last.log));
    assert Steps(luck, t, n, s) == last.(log := [n1] + ([n1] + ([n3] + last.log)));
  }

  lemma LastTwoOfEnslave(luck: Luck, t: nat, n: Net, x: string, bond: string)
    ensures var n4 := Apply(n, Master(x, bond));
            var n5 := Attempt(luck, t + 1, n4, Up(x));
            Steps(luck, t, n, [Must(Master(x, bond)), Try(Up(x))]) ==
              if luck(t) then Outcome(n5, t + 2, true, [n4, n5]) else Outcome(n, t + 1, false, [n])
  {
    var n4 := Apply(n, Master(x, bond));
    var n5 := Attempt(luck, t + 1, n4, Up(x));
    assert [Must(Master(x, bond)), Try(Up(x))][1..] == [Try(Up(x))] && [Try(Up(x))][1..] == [];
    assert Steps(luck, t + 2, n5, []) == Outcome(n5, t + 2, true, []);
    assert Steps(luck, t + 1, n4, [Try(Up(x))]) == Outcome(n5, t + 2, true, [n5]);
  }

  lemma EnslaveNamesOne(x: string, bond: string, y: string)
    requires y != x
    ensures LeavesAlone(Enslave(x, bond), y)
  {
  }

  /** Members whose enslavement got through are in the bond. */
  lemma {:induction false} EnslavedJoin(luck: Luck, t: nat, net: Net, sorted: seq<string>, bond: string, x: string)
    requires x in sorted && Steps(luck, t, net, EnslaveAll(sorted, bond)).ok
    ensures MasterOf(Steps(luck, t, net, EnslaveAll(sorted, bond)).net, x) == bond
  {
    var init, last := sorted[..|sorted| - 1], sorted[|sorted| - 1];
    StepsConcat(luck, t, net, EnslaveAll(init, bond), Enslave(last, bond));
    var first := Steps(luck, t, net, EnslaveAll(init, bond));
    EnslaveRun(luck, first.t, first.net, last, bond);
    if x != last {
      assert sorted == init + [last];
      EnslavedJoin(luck, t, net, init, bond, x);
      EnslaveNamesOne(last, bond, x);
      StepsLeaveAlone(luck, first.t, first.net, Enslave(last, bond), x);
    }
  }

  lemma RaiseRun(luck: Luck, t: nat, n: Net, req: Request)
    requires req.target != ""
    ensures var out := Steps(luck, t, n, RaiseSteps(req));
            out.ok ==> out.t == t + 2 && req.name in out.net.up && MasterOf(out.net, req.name) == req.target
  {
    var a, b := Must(Up(req.name)), Must(Master(req.name, req.target));
    assert RaiseSteps(req) == [a, b] && [a, b][1..] == [b] && [b][1..] == [];
    var n1 := Apply(n, a.cmd);
    var n2 := Apply(n1, b.cmd);
    assert Steps(luck, t + 2, n2, []) == Outcome(n2, t + 2, true, []);
    assert luck(t + 1) ==> Steps(luck, t + 1, n1, [b]) == Outcome(n2, t + 2, true, [n2]);
  }

  lemma RaiseNamesOne(req: Request, y: string)
    requires y != req.name
    ensures LeavesAlone(RaiseSteps(req), y)
  {
  }

  lemma BothLeaveAlone(a: seq<Step>, b: seq<Step>, x: string)
    requires LeavesAlone(a, x) && LeavesAlone(b, x)
    ensures LeavesAlone(a + b, x)
  {
  }

  lemma AddedThenLeaves(luck: Luck, t: nat, net: Net, req: Request, steps: seq<Step>, x: string)
    requires req.ifaces != [] && x != req.name && LeavesAlone(steps, x)
    ensures var out := Steps(luck, t + 1, Added(net, req), steps);
            Same(net, out.net, x) && forall n | n in [Added(net, req)] + out.log :: Same(net, n, x)
  {
    var n1 := Added(net, req);
    assert Same(net, n1, x);
    StepsLeaveAlone(luck, t + 1, n1, steps, x);
    forall n | n in [n1] + Steps(luck, t + 1, n1, steps).log ensures Same(net, n, x) {
      assert n == n1 || Same(n1, n, x);
    }
  }

  /** A link that is neither the bond nor enslaved keeps its master through all forward commands. */
  lemma OutsidersStay(luck: Luck, t: nat, net: Net, req: Request, x: string)
    requires req.ifaces != [] && req.target != "" && x != req.name && x !in Order(net, req)
    ensures Same(net, Moving(luck, t, net, req).net, x)
    ensures forall n | n in [Added(net, req)] + Moving(luck, t, net, req).log :: Same(net, n, x)
  {
    ForwardOnBridge(PrevMasters(net, req.ifaces), req);
    EnslaveLeavesAlone(Order(net, req), req.name, x);
    RaiseNamesOne(req, x);
    BothLeaveAlone(RaiseSteps(req), EnslaveAll(Order(net, req), req.name), x);
    AddedThenLeaves(luck, t, net, req, Forward(PrevMasters(net, req.ifaces), req), x);
  }

  /** The secondaries' part: who carries the bridge when it is over. */
  lemma PreparedState(luck: Luck, t: nat, net: Net, req: Request, phys: set<string>)
    requires Connected(net, phys, req)
    ensures var mid := Prepared(luck, t, net, req);
            mid.ok ==> && req.name in mid.net.up && MasterOf(mid.net, req.name) == req.target
                       && (forall s | s in Secs(net, req) :: MasterOf(mid.net, s) == req.name)
  {
    var n1 := Added(net, req);
    StepsConcat(luck, t + 1, n1, RaiseSteps(req), EnslaveAll(Secs(net, req), req.name));
    RaiseRun(luck, t + 1, n1, req);
    var out := Steps(luck, t + 1, n1, RaiseSteps(req));
    var mid := Prepared(luck, t, net, req);
    if mid.ok {
      SortedMembers(PrevMasters(net, req.ifaces), req.target, req.ifaces);
      EnslaveLeavesAlone(Secs(net, req), req.name, req.name);
      StepsLeaveAlone(luck, out.t, out.net, EnslaveAll(Secs(net, req), req.name), req.name);
      forall s | s in Secs(net, req) ensures MasterOf(mid.net, s) == req.name {
        EnslavedJoin(luck, out.t, out.net, Secs(net, req), req.name, s);
      }
    }
  }

  lemma PreparedLeaves(luck: Luck, t: nat, net: Net, req: Request, x: string)
    requires req.ifaces != [] && x != req.name && x !in Secs(net, req)
    ensures Same(net, Prepared(luck, t, net, req).net, x)
    ensures forall n | n in [Added(net, req)] + Prepared(luck, t, net, req).log :: Same(net, n, x)
  {
    EnslaveLeavesAlone(Secs(net, req), req.name, x);
    RaiseNamesOne(req, x);
    BothLeaveAlone(RaiseSteps(req), EnslaveAll(Secs(net, req), req.name), x);
    AddedThenLeaves(luck, t, net, req, RaiseSteps(req) + EnslaveAll(Secs(net, req), req.name), x);
  }

  /** Where every attached link that is up is enslaved, there is just one, and it moves last. */
  lemma SoleUplink(net: Net, phys: set<string>, req: Request) returns (u: string)
    requires Connected(net, phys, req) && !Stays(net, phys, req)
    ensures Attached(net, phys, req, u) && u != req.name
    ensures Order(net, req) == Secs(net, req) + [u] && u !in Secs(net, req)
    ensures forall p | Attached(net, phys, req, p) :: p == u
  {
    u :| Attached(net, phys, req, u);
    OrderEndsIn(net, req, u);
    SortedMembers(PrevMasters(net, req.ifaces), req.target, req.ifaces);
  }

  lemma MovingInTwo(luck: Luck, t: nat, net: Net, req: Request, u: string)
    requires req.ifaces != [] && req.target != "" && Order(net, req) == Secs(net, req) + [u]
    ensures var mid := Prepared(luck, t, net, req);
            var move := Steps(luck, mid.t, mid.net, Enslave(u, req.name));
            Moving(luck, t, net, req) == if !mid.ok then mid else move.(log := mid.log + move.log)
  {
    var first, second := RaiseSteps(req) + EnslaveAll(Secs(net, req), req.name), Enslave(u, req.name);
    ForwardOnBridge(PrevMasters(net, req.ifaces), req);
    assert (Secs(net, req) + [u])[..|Secs(net, req)|] == Secs(net, req);
    assert Forward(PrevMasters(net, req.ifaces), req) == first + second;
    StepsConcat(luck, t + 1, Added(net, req), first, second);
  }

  /** With a secondary up in the bond, the uplink can move. */
  lemma SecondaryCarries(luck: Luck, t: nat, mid: Net, phys: set<string>, s: string, u: string, bond: string, target: string)
    requires s in phys && s != u && bond != u && bond in mid.up && MasterOf(mid, bond) == target
    requires MasterOf(mid, s) == bond && s in mid.up
    ensures NeverCutOff(Steps(luck, t, mid, Enslave(u, bond)).log, phys, bond, target)
  {
    var steps := Enslave(u, bond);
    EnslaveNamesOne(u, bond, s);
    EnslaveNamesOne(u, bond, bond);
    StepsLeaveAlone(luck, t, mid, steps, s);
    StepsLeaveAlone(luck, t, mid, steps, bond);
    forall n | n in Steps(luck, t, mid, steps).log ensures Uplinked(n, phys, bond, target) {
      assert Same(mid, n, s) && Same(mid, n, bond);
      assert Carries(n, bond, target, s);
    }
  }

  /** An uplink that cannot be taken off or down carries the bridge until it is in the bond. */
  lemma NeverTakenOff(luck: Luck, t: nat, mid: Net, phys: set<string>, u: string, bond: string, target: string)
    requires !luck(t) && !luck(t + 2)
    requires u in phys && u in mid.up && MasterOf(mid, u) == target && bond != u && bond in mid.up && MasterOf(mid, bond) == target
    ensures NeverCutOff(Steps(luck, t, mid, Enslave(u, bond)).log, phys, bond, target)
  {
    EnslaveRun(luck, t, mid, u, bond);
    forall n | n in Steps(luck, t, mid, Enslave(u, bond)).log ensures Uplinked(n, phys, bond, target) {
      assert Carries(n, bond, target, u);
    }
  }

  /** Nobody but `u` and the links up in the bond could carry the bridge. */
  ghost predicate OnlyCarriedBy(mid: Net, phys: set<string>, bond: string, target: string, u: string) {
    forall p | p in phys && p != u :: !Carries(mid, bond, target, p)
  }

  lemma TakenOff(luck: Luck, t: nat, mid: Net, phys: set<string>, u: string, bond: string, target: string)
    requires luck(t) || luck(t + 2)
    requires OnlyCarriedBy(mid, phys, bond, target, u) && u != bond && target != "" && bond != ""
    ensures !NeverCutOff(Steps(luck, t, mid, Enslave(u, bond)).log, phys, bond, target)
  {
    EnslaveRun(luck, t, mid, u, bond);
    var n1 := Attempt(luck, t, mid, NoMaster(u));
    var off := if luck(t) then n1 else Attempt(luck, t + 2, n1, Down(u));
    var log := Steps(luck, t, mid, Enslave(u, bond)).log;
    assert off == log[0] || off == log[2];
    assert off in log;
    forall p | p in phys ensures !Carries(off, bond, target, p) {
      if p != u {
        assert Same(mid, off, p) && Same(mid, off, bond);
        assert !Carries(mid, bond, target, p);
      }
    }
    assert !Uplinked(off, phys, bond, target);
  }

  /** With no secondary up, nobody but the uplink carries the bridge. */
  lemma NobodyElse(luck: Luck, t: nat, net: Net, phys: set<string>, req: Request, u: string)
    requires Connected(net, phys, req) && !Stays(net, phys, req) && u !in Secs(net, req)
    requires forall p | Attached(net, phys, req, p) :: p == u
    requires Prepared(luck, t, net, req).ok && forall s | s in Secs(net, req) :: s !in Prepared(luck, t, net, req).net.up
    ensures OnlyCarriedBy(Prepared(luck, t, net, req).net, phys, req.name, req.target, u)
  {
    var mid := Prepared(luck, t, net, req).net;
    forall p | p in phys && p != u ensures !Carries(mid, req.name, req.target, p) {
      if p !in Secs(net, req) {
        PreparedLeaves(luck, t, net, req, p);
        assert p in net.master ==> net.master[p] in net.links;
        assert !Attached(net, phys, req, p);
      }
    }
  }

  lemma MoveHeld(luck: Luck, t: nat, mid: Net, phys: set<string>, secs: seq<string>, u: string, bond: string, target: string)
    requires u in phys && u in mid.up && MasterOf(mid, u) == target && bond != u && bond in mid.up && MasterOf(mid, bond) == target
    requires u !in secs && forall s | s in secs :: s in phys && MasterOf(mid, s) == bond
    requires !(luck(t) || luck(t + 2)) || SecondaryUp(mid, secs)
    ensures NeverCutOff(Steps(luck, t, mid, Enslave(u, bond)).log, phys, bond, target)
  {
    if s :| s in secs && s in mid.up {
      SecondaryCarries(luck, t, mid, phys, s, u, bond, target);
    } else {
      NeverTakenOff(luck, t, mid, phys, u, bond, target);
    }
  }

  lemma MoveExact(luck: Luck, t: nat, net: Net, phys: set<string>, req: Request, u: string)
    requires Connected(net, phys, req) && !Stays(net, phys, req) && Prepared(luck, t, net, req).ok
    requires Attached(net, phys, req, u) && u != req.name && u !in Secs(net, req)
    requires forall p | Attached(net, phys, req, p) :: p == u
    ensures var mid := Prepared(luck, t, net, req);
            NeverCutOff(Steps(luck, mid.t, mid.net, Enslave(u, req.name)).log, phys, req.name, req.target)
            <==> SafelyMoved(luck, t, net, req)
  {
    var mid := Prepared(luck, t, net, req);
    if SafelyMoved(luck, t, net, req) {
      PreparedState(luck, t, net, req, phys);
      PreparedLeaves(luck, t, net, req, u);
      SecsRequested(net, req);
      MoveHeld(luck, mid.t, mid.net, phys, Secs(net, req), u, req.name, req.target);
    } else {
      NobodyElse(luck, t, net, phys, req, u);
      TakenOff(luck, mid.t, mid.net, phys, u, req.name, req.target);
    }
  }

  lemma SecsRequested(net: Net, req: Request)
    ensures forall s | s in Secs(net, req) :: s in req.ifaces
  {
    SortedMembers(PrevMasters(net, req.ifaces), req.target, req.ifaces);
  }

  lemma PreparedHolds(luck: Luck, t: nat, net: Net, phys: set<string>, req: Request, u: string)
    requires Connected(net, phys, req) && Attached(net, phys, req, u)
    requires u != req.name && u !in Secs(net, req)
    ensures NeverCutOff([Added(net, req)] + Prepared(luck, t, net, req).log, phys, req.name, req.target)
  {
    PreparedLeaves(luck, t, net, req, u);
    forall n | n in [Added(net, req)] + Prepared(luck, t, net, req).log ensures Uplinked(n, phys, req.name, req.target) {
      assert Same(net, n, u) && Carries(n, req.name, req.target, u);
    }
  }

  lemma StayerCarries(luck: Luck, t: nat, net: Net, phys: set<string>, req: Request, a: string)
    requires Connected(net, phys, req) && Attached(net, phys, req, a) && a !in Order(net, req)
    ensures NeverCutOff([Added(net, req)] + Moving(luck, t, net, req).log, phys, req.name, req.target)
  {
    assert a in net.master;
    OutsidersStay(luck, t, net, req, a);
    forall n | n in [Added(net, req)] + Moving(luck, t, net, req).log ensures Uplinked(n, phys, req.name, req.target) {
      assert Same(net, n, a) && Carries(n, req.name, req.target, a);
    }
  }

  lemma SoleMover(luck: Luck, t: nat, net: Net, phys: set<string>, req: Request)
    requires Connected(net, phys, req) && !Stays(net, phys, req)
    ensures NeverCutOff([Added(net, req)] + Moving(luck, t, net, req).log, phys, req.name, req.target)
            <==> SafelyMoved(luck, t, net, req)
  {
    var u := SoleUplink(net, phys, req);
    var mid := Prepared(luck, t, net, req);
    var start := [Added(net, req)];
    MovingInTwo(luck, t, net, req, u);
    PreparedHolds(luck, t, net, phys, req, u);
    if mid.ok {
      var move := Steps(luck, mid.t, mid.net, Enslave(u, req.name));
      MoveExact(luck, t, net, phys, req, u);
      assert start + (mid.log + move.log) == start + mid.log + move.log;
      CutOffConcat(start + mid.log, move.log, phys, req.name, req.target);
    }
  }

  /** Main result on moving the members: whatever commands fail, the bridge has an up uplink after
      each of them exactly when an attached link that is up is not enslaved at all, or an enslaved
      secondary is up by the time the uplink is taken off, if it ever is. */
  lemma ForwardContinuity(luck: Luck, t: nat, net: Net, phys: set<string>, req: Request)
    requires Connected(net, phys, req)
    ensures NeverCutOff([Added(net, req)] + Moving(luck, t, net, req).log, phys, req.name, req.target)
            <==> Stays(net, phys, req) || SafelyMoved(luck, t, net, req)
  {
    if a :| Attached(net, phys, req, a) && a !in Order(net, req) {
      StayerCarries(luck, t, net, phys, req, a);
    } else {
      SoleMover(luck, t, net, phys, req);
    }
  }

  // ---- the members are put back ----

  /** Somebody else carries the bridge while the rollback takes member `k` off its master: a link
      already put back, or one still as the forward commands left it in `f`. */
  ghost predicate HeldWithout(net: Net, f: Net, phys: set<string>, req: Request, k: nat)
    requires k < |req.ifaces|
  {
    exists p :: p in phys && p != req.ifaces[k] && HoldsAt(net, f, req, k, p)
  }

  ghost predicate HoldsAt(net: Net, f: Net, req: Request, k: nat, p: string)
    requires k < |req.ifaces|
  {
    if p in req.ifaces[..k] then MasterOf(net, p) == req.target else Carries(f, req.name, req.target, p)
  }

  ghost predicate HeldUpTo(net: Net, f: Net, phys: set<string>, req: Request, j: nat)
    requires j <= |req.ifaces|
  {
    forall k: nat | k < j :: HeldWithout(net, f, phys, req, k)
  }

  ghost predicate AlwaysHeld(net: Net, f: Net, phys: set<string>, req: Request) {
    HeldUpTo(net, f, phys, req, |req.ifaces|)
  }

  /** `f` is a network the forward commands may have left. */
  ghost predicate LeftBy(net: Net, f: Net, phys: set<string>, req: Request) {
    Connected(net, phys, req) && OnlyMembersTouched(net, f, req.ifaces, req.name)
  }

  /** Who carries the bridge once the first `k` members are put back. */
  lemma CarriesWhenPutBack(net: Net, f: Net, m: Net, phys: set<string>, req: Request, k: nat, p: string)
    requires LeftBy(net, f, phys, req) && k < |req.ifaces| && p != req.name
    requires m.up == f.up + Members(req.ifaces[..k])
    requires AllPutBack(f, m, PrevMasters(net, req.ifaces), req.ifaces[..k])
    ensures Carries(m, req.name, req.target, p) <==> HoldsAt(net, f, req, k, p)
  {
    var prev, init := PrevMasters(net, req.ifaces), req.ifaces[..k];
    assert PutBack(f, m, prev, init, p) && PutBack(f, m, prev, init, req.name);
    assert req.name !in init;
    assert p in net.master ==> net.master[p] in net.links;
    if p in init { assert p in req.ifaces && p in Members(init); }
  }

  /** Undoing a member leaves every other link alone, and takes the member itself off first. */
  lemma UndoOneLog(m: Net, prev: map<string, string>, x: string, y: string)
    requires y != x
    ensures NoBail(UndoOne(prev, x)) && forall n | n in EffectLog(m, UndoOne(prev, x)) :: Same(m, n, y)
  {
    assert LeavesAlone(UndoOne(prev, x), y);
    LeftAlone(m, UndoOne(prev, x), y);
  }

  lemma FirstOfLog(net: Net, steps: seq<Step>)
    requires NoBail(steps) && steps != []
    ensures Apply(net, steps[0].cmd) in EffectLog(net, steps)
  {
    assert EffectLog(net, steps)[0] == Apply(net, steps[0].cmd);
  }

  /** Another link carries the bridge. */
  ghost predicate CarriedWithout(m: Net, phys: set<string>, bond: string, target: string, x: string) {
    exists p :: p in phys && p != x && Carries(m, bond, target, p)
  }

  lemma UndoOneExact(m: Net, phys: set<string>, prev: map<string, string>, x: string, bond: string, target: string)
    requires bond != "" && target != "" && bond != x
    ensures NoBail(UndoOne(prev, x))
    ensures NeverCutOff(EffectLog(m, UndoOne(prev, x)), phys, bond, target) <==> CarriedWithout(m, phys, bond, target, x)
  {
    UndoOneLog(m, prev, x, bond);
    var log := EffectLog(m, UndoOne(prev, x));
    if p :| p in phys && p != x && Carries(m, bond, target, p) {
      UndoOneLog(m, prev, x, p);
      forall n | n in log ensures Uplinked(n, phys, bond, target) {
        assert Same(m, n, p) && Same(m, n, bond) && Carries(n, bond, target, p);
      }
    } else {
      var off := Apply(m, NoMaster(x));
      FirstOfLog(m, UndoOne(prev, x));
      assert off in log;
      forall p | p in phys ensures !Carries(off, bond, target, p) {
        assert p != x ==> Same(m, off, p) && !Carries(m, bond, target, p);
      }
      assert !Uplinked(off, phys, bond, target);
    }
  }

  lemma UndoneAt(net: Net, f: Net, phys: set<string>, req: Request, k: nat)
    requires LeftBy(net, f, phys, req) && k < |req.ifaces|
    ensures var prev := PrevMasters(net, req.ifaces);
            && NoBail(UndoMembers(prev, req.ifaces[..k])) && NoBail(UndoOne(prev, req.ifaces[k]))
            && (NeverCutOff(EffectLog(Effect(f, UndoMembers(prev, req.ifaces[..k])), UndoOne(prev, req.ifaces[k])), phys, req.name, req.target)
                <==> HeldWithout(net, f, phys, req, k))
  {
    var prev, x := PrevMasters(net, req.ifaces), req.ifaces[k];
    UndoMembersEffect(f, prev, req.ifaces[..k]);
    var m := Effect(f, UndoMembers(prev, req.ifaces[..k]));
    UndoOneExact(m, phys, prev, x, req.name, req.target);
    forall p | p in phys ensures Carries(m, req.name, req.target, p) <==> HoldsAt(net, f, req, k, p) {
      CarriesWhenPutBack(net, f, m, phys, req, k, p);
    }
  }

  lemma UndoMembersSnoc(prev: map<string, string>, ifaces: seq<string>, j: nat)
    requires 0 < j <= |ifaces|
    ensures UndoMembers(prev, ifaces[..j]) == UndoMembers(prev, ifaces[..j - 1]) + UndoOne(prev, ifaces[j - 1])
  {
    assert ifaces[..j][..j - 1] == ifaces[..j - 1];
  }

  /** Undoing the first `j` members is harmless. */
  ghost predicate UndoneSafely(net: Net, f: Net, phys: set<string>, req: Request, j: nat)
    requires j <= |req.ifaces|
  {
    var undo := UndoMembers(PrevMasters(net, req.ifaces), req.ifaces[..j]);
    NoBail(undo) && NeverCutOff(EffectLog(f, undo), phys, req.name, req.target)
  }

  lemma HeldOneMore(net: Net, f: Net, phys: set<string>, req: Request, j: nat)
    requires 0 < j <= |req.ifaces|
    ensures HeldUpTo(net, f, phys, req, j) <==> HeldUpTo(net, f, phys, req, j - 1) && HeldWithout(net, f, phys, req, j - 1)
  {
  }

  lemma LogOfTwo(f: Net, a: seq<Step>, b: seq<Step>, phys: set<string>, bond: string, target: string)
    requires NoBail(a) && NoBail(b)
    ensures NoBail(a + b)
    ensures NeverCutOff(EffectLog(f, a + b), phys, bond, target) <==>
              NeverCutOff(EffectLog(f, a), phys, bond, target) && NeverCutOff(EffectLog(Effect(f, a), b), phys, bond, target)
  {
    EffectConcat(f, a, b);
    CutOffConcat(EffectLog(f, a), EffectLog(Effect(f, a), b), phys, bond, target);
  }

  lemma UndoneOneMore(net: Net, f: Net, phys: set<string>, req: Request, j: nat)
    requires LeftBy(net, f, phys, req) && 0 < j <= |req.ifaces|
    ensures UndoneSafely(net, f, phys, req, j) <==>
              UndoneSafely(net, f, phys, req, j - 1) && HeldWithout(net, f, phys, req, j - 1)
  {
    var prev := PrevMasters(net, req.ifaces);
    UndoneAt(net, f, phys, req, j - 1);
    UndoMembersSnoc(prev, req.ifaces, j);
    LogOfTwo(f, UndoMembers(prev, req.ifaces[..j - 1]), UndoOne(prev, req.ifaces[j - 1]), phys, req.name, req.target);
  }

  lemma {:induction false} UndoneUpTo(net: Net, f: Net, phys: set<string>, req: Request, j: nat)
    requires LeftBy(net, f, phys, req) && j <= |req.ifaces|
    ensures UndoneSafely(net, f, phys, req, j) <==> HeldUpTo(net, f, phys, req, j)
  {
    if j == 0 {
      assert UndoMembers(PrevMasters(net, req.ifaces), req.ifaces[..j]) == [];
    } else {
      UndoneUpTo(net, f, phys, req, j - 1);
      UndoneOneMore(net, f, phys, req, j);
      HeldOneMore(net, f, phys, req, j);
    }
  }

  lemma RemoveLog(m: Net, phys: set<string>, p: string, bond: string, target: string)
    requires p in phys && p in m.up && MasterOf(m, p) == target && p != bond && target != bond && target != ""
    ensures var last := [Try(Down(bond)), Try(Del(bond))];
            NoBail(last) && NeverCutOff(EffectLog(m, last), phys, bond, target)
  {
    var down, del := Try(Down(bond)), Try(Del(bond));
    EffectOfTwo(m, down, del);
    var n1 := Apply(m, down.cmd);
    var n2 := Apply(n1, del.cmd);
    assert Carries(n1, bond, target, p);
    assert n2.up == n1.up - {bond} && p in n2.master;
    assert Carries(n2, bond, target, p);
  }

  /** Once every member is put back the bond is not needed any more. */
  lemma RemovingHarmless(net: Net, f: Net, phys: set<string>, req: Request)
    requires LeftBy(net, f, phys, req)
    ensures var undo := UndoMembers(PrevMasters(net, req.ifaces), req.ifaces);
            var last := [Try(Down(req.name)), Try(Del(req.name))];
            NoBail(undo) && NoBail(last) && NeverCutOff(EffectLog(Effect(f, undo), last), phys, req.name, req.target)
  {
    var prev := PrevMasters(net, req.ifaces);
    UndoMembersEffect(f, prev, req.ifaces);
    var m := Effect(f, UndoMembers(prev, req.ifaces));
    var p :| Attached(net, phys, req, p);
    assert PutBack(f, m, prev, req.ifaces, p);
    assert p in req.ifaces ==> p in Members(req.ifaces);
    RemoveLog(m, phys, p, req.name, req.target);
  }

  /** The rollback, command by command, from any network the forward commands may have left. */
  lemma RollbackExact(net: Net, f: Net, phys: set<string>, req: Request)
    requires LeftBy(net, f, phys, req)
    ensures NoBail(Rollback(PrevMasters(net, req.ifaces), req))
    ensures NeverCutOff(EffectLog(f, Rollback(PrevMasters(net, req.ifaces), req)), phys, req.name, req.target)
            <==> AlwaysHeld(net, f, phys, req)
  {
    var undo := UndoMembers(PrevMasters(net, req.ifaces), req.ifaces);
    var last := [Try(Down(req.name)), Try(Del(req.name))];
    assert req.ifaces[..|req.ifaces|] == req.ifaces;
    UndoneUpTo(net, f, phys, req, |req.ifaces|);
    RemovingHarmless(net, f, phys, req);
    LogOfTwo(f, undo, last, phys, req.name, req.target);
  }

  lemma MovingLeaves(luck: Luck, t: nat, net: Net, phys: set<string>, req: Request)
    requires Connected(net, phys, req)
    ensures LeftBy(net, Moving(luck, t, net, req).net, phys, req)
  {
    AddedFrame(net, req.name, PrimaryArg(net, req), req.ifaces);
    ForwardSteps(PrevMasters(net, req.ifaces), req);
    StepsTouchMembers(luck, t + 1, net, Added(net, req), Forward(PrevMasters(net, req.ifaces), req), req.ifaces, req.name);
  }

  /** A forward phase failed, and the commands of the rollback all work. */
  ghost predicate RollsBack(luck: Luck, t: nat, net: Net, req: Request)
    requires req.ifaces != []
  {
    var fwd := Moving(luck, t, net, req);
    luck(t) && !fwd.ok && AllLucky(luck, fwd.t, fwd.t + |Rollback(PrevMasters(net, req.ifaces), req)|)
  }

  function PuttingBack(luck: Luck, t: nat, net: Net, req: Request): Outcome
    requires req.ifaces != []
  {
    var fwd := Moving(luck, t, net, req);
    Steps(luck, fwd.t, fwd.net, Rollback(PrevMasters(net, req.ifaces), req))
  }

  lemma RollbackContinuity(luck: Luck, t: nat, net: Net, phys: set<string>, req: Request)
    requires Connected(net, phys, req) && RollsBack(luck, t, net, req)
    ensures NeverCutOff(PuttingBack(luck, t, net, req).log, phys, req.name, req.target)
            <==> AlwaysHeld(net, Moving(luck, t, net, req).net, phys, req)
  {
    var fwd := Moving(luck, t, net, req);
    MovingLeaves(luck, t, net, phys, req);
    RollbackExact(net, fwd.net, phys, req);
    LuckySteps(luck, fwd.t, fwd.net, Rollback(PrevMasters(net, req.ifaces), req));
  }

  /** Main result on continuity: a whole creation, whatever commands fail before the rollback. */
  lemma CreateContinuity(luck: Luck, t: nat, net: Net, route: DefaultRoute, phys: set<string>, req: Request)
    requires Accepted(net, route, req) && Connected(net, phys, req)
    requires luck(t) ==> Moving(luck, t, net, req).ok || RollsBack(luck, t, net, req)
    ensures NeverCutOff(Create(luck, t, net, route, req).out.log, phys, req.name, req.target)
            <==> (luck(t) ==>
                    && (Stays(net, phys, req) || SafelyMoved(luck, t, net, req))
                    && (Moving(luck, t, net, req).ok || AlwaysHeld(net, Moving(luck, t, net, req).net, phys, req)))
  {
    if luck(t) {
      var start, fwd := [Added(net, req)], Moving(luck, t, net, req);
      AddedThen(luck, t, net, route, req);
      ForwardContinuity(luck, t, net, phys, req);
      if !fwd.ok {
        RollbackContinuity(luck, t, net, phys, req);
        CutOffConcat(start + fwd.log, PuttingBack(luck, t, net, req).log, phys, req.name, req.target);
      }
    } else {
      NotAdded(luck, t, net, route, phys, req);
    }
  }

  lemma NotAdded(luck: Luck, t: nat, net: Net, route: DefaultRoute, phys: set<string>, req: Request)
    requires Accepted(net, route, req) && Connected(net, phys, req) && !luck(t)
    ensures NeverCutOff(Create(luck, t, net, route, req).out.log, phys, req.name, req.target)
  {
    assert Create(luck, t, net, route, req).out.log == [net];
    var p :| Attached(net, phys, req, p);
    assert Carries(net, req.name, req.target, p);
  }

  // ---- the requests whose rollback is safe ----

  /** A link that will hold the bridge while member `k` is taken off: attached, another one, and either
      put back by then, or up from the start and not the uplink, which the forward commands move. */
  ghost predicate Holder(net: Net, phys: set<string>, req: Request, k: nat, p: string)
    requires k < |req.ifaces|
  {
    && p in phys && p != req.ifaces[k] && MasterOf(net, p) == req.target
    && (p in req.ifaces[..k] || (p in net.up && p != Uplink(PrevMasters(net, req.ifaces), req.target, req.ifaces)))
  }

  ghost predicate HasHolder(net: Net, phys: set<string>, req: Request, k: nat)
    requires k < |req.ifaces|
  {
    exists p :: Holder(net, phys, req, k, p)
  }

  ghost predicate Covered(net: Net, phys: set<string>, req: Request) {
    forall k: nat | k < |req.ifaces| :: HasHolder(net, phys, req, k)
  }

  lemma HolderHolds(luck: Luck, t: nat, net: Net, phys: set<string>, req: Request, k: nat, p: string)
    requires Connected(net, phys, req) && k < |req.ifaces| && Holder(net, phys, req, k, p)
    ensures HoldsAt(net, Moving(luck, t, net, req).net, req, k, p)
  {
    if p !in req.ifaces[..k] {
      SortedMembers(PrevMasters(net, req.ifaces), req.target, req.ifaces);
      assert p in Secs(net, req) ==> p in req.ifaces && !AttachedTo(PrevMasters(net, req.ifaces), req.target, p);
      assert p !in Order(net, req);
      assert p in net.master && p != req.name;
      OutsidersStay(luck, t, net, req, p);
    }
  }

  /** Every secondary joins the bond and none comes up. */
  ghost predicate FailsUps(luck: Luck, t: nat, n: nat) {
    forall j: nat | j < n :: UpFails(luck, t, j)
  }

  ghost predicate UpFails(luck: Luck, t: nat, j: nat) {
    var k := t + 5 * j;
    luck(k) && luck(k + 1) && luck(k + 2) && luck(k + 3) && !luck(k + 4)
  }

  /** The members enslaved so far, and the next one, stay down. */
  lemma OneMoreDown(luck: Luck, t: nat, n: Net, init: seq<string>, last: string, bond: string)
    requires UpFails(luck, t, 0) && forall x | x in init :: x !in n.up
    ensures var out := Steps(luck, t, n, Enslave(last, bond));
            out.ok && out.t == t + 5 && forall x | x in init + [last] :: x !in out.net.up
  {
    EnslaveRun(luck, t, n, last, bond);
    var out := Steps(luck, t, n, Enslave(last, bond));
    forall x | x in init + [last] ensures x !in out.net.up {
      if x != last {
        EnslaveNamesOne(last, bond, x);
        StepsLeaveAlone(luck, t, n, Enslave(last, bond), x);
      }
    }
  }

  lemma {:induction false} EnslavedDown(luck: Luck, t: nat, net: Net, sorted: seq<string>, bond: string)
    requires FailsUps(luck, t, |sorted|)
    ensures var out := Steps(luck, t, net, EnslaveAll(sorted, bond));
            && out.ok && out.t == t + 5 * |sorted|
            && forall x | x in sorted :: x !in out.net.up
  {
    if sorted != [] {
      var init, last := sorted[..|sorted| - 1], sorted[|sorted| - 1];
      assert sorted == init + [last];
      EnslavedDown(luck, t, net, init, bond);
      StepsConcat(luck, t, net, EnslaveAll(init, bond), Enslave(last, bond));
      var first := Steps(luck, t, net, EnslaveAll(init, bond));
      assert UpFails(luck, t, |init|) && UpFails(luck, first.t, 0);
      OneMoreDown(luck, first.t, first.net, init, last, bond);
    }
  }

  /** The worst luck: no secondary comes up, and the uplink, taken off the bridge, does not join. */
  function Worst(t: nat, n: nat): Luck {
    (k: nat) => k != t + 6 + 5 * n && (t + 3 <= k < t + 3 + 5 * n ==> (k - (t + 3)) % 5 != 4)
  }

  lemma OffsetInRound(j: nat)
    ensures (5 * j) % 5 == 0 && (5 * j + 1) % 5 == 1 && (5 * j + 2) % 5 == 2 && (5 * j + 3) % 5 == 3 && (5 * j + 4) % 5 == 4
  {
  }

  lemma WorstFailsUps(t: nat, n: nat)
    ensures FailsUps(Worst(t, n), t + 3, n)
  {
    var luck, start := Worst(t, n), t + 3;
    forall j: nat | j < n ensures UpFails(luck, start, j) {
      OffsetInRound(j);
    }
  }

  /** When no secondary comes up, they are in the bond but down by the time the uplink is to move. */
  lemma PreparedDown(luck: Luck, t: nat, net: Net, req: Request)
    requires req.ifaces != [] && req.target != "" && luck(t + 1) && luck(t + 2) && FailsUps(luck, t + 3, |Secs(net, req)|)
    ensures var mid := Prepared(luck, t, net, req);
            mid.ok && mid.t == t + 3 + 5 * |Secs(net, req)| && !SecondaryUp(mid.net, Secs(net, req))
  {
    var n1 := Added(net, req);
    StepsConcat(luck, t + 1, n1, RaiseSteps(req), EnslaveAll(Secs(net, req), req.name));
    RaiseEffect(n1, req);
    assert AllLucky(luck, t + 1, t + 1 + |RaiseSteps(req)|);
    LuckySteps(luck, t + 1, n1, RaiseSteps(req));
    EnslavedDown(luck, t + 3, Effect(n1, RaiseSteps(req)), Secs(net, req), req.name);
  }

  lemma WorstPrepared(t: nat, net: Net, req: Request)
    requires req.ifaces != [] && req.target != ""
    ensures var mid := Prepared(Worst(t, |Secs(net, req)|), t, net, req);
            mid.ok && mid.t == t + 3 + 5 * |Secs(net, req)| && !SecondaryUp(mid.net, Secs(net, req))
  {
    WorstFailsUps(t, |Secs(net, req)|);
    PreparedDown(Worst(t, |Secs(net, req)|), t, net, req);
  }

  /** Then the uplink is left without a master and the creation rolls back. */
  lemma WorstMove(t: nat, net: Net, phys: set<string>, req: Request, u: string)
    requires Connected(net, phys, req) && Order(net, req) == Secs(net, req) + [u]
    ensures var luck := Worst(t, |Secs(net, req)|);
            RollsBack(luck, t, net, req) && MasterOf(Moving(luck, t, net, req).net, u) == ""
    ensures var luck := Worst(t, |Secs(net, req)|);
            forall x | x != u :: Same(Prepared(luck, t, net, req).net, Moving(luck, t, net, req).net, x)
  {
    var luck := Worst(t, |Secs(net, req)|);
    WorstPrepared(t, net, req);
    MovingInTwo(luck, t, net, req, u);
    var mid := Prepared(luck, t, net, req);
    EnslaveRun(luck, mid.t, mid.net, u, req.name);
  }

  lemma UplinkOrders(net: Net, phys: set<string>, req: Request, u: string)
    requires Connected(net, phys, req) && u == Uplink(PrevMasters(net, req.ifaces), req.target, req.ifaces) && u != ""
    ensures Order(net, req) == Secs(net, req) + [u] && u in req.ifaces && u !in Secs(net, req)
  {
    SortedMembers(PrevMasters(net, req.ifaces), req.target, req.ifaces);
  }

  /** A link that holds the bridge after the worst forward phase would have been a holder. */
  lemma WorstHolds(t: nat, net: Net, phys: set<string>, req: Request, k: nat, p: string)
    requires Connected(net, phys, req) && k < |req.ifaces| && p in phys && p != req.ifaces[k]
    requires Uplink(PrevMasters(net, req.ifaces), req.target, req.ifaces) != ""
    requires HoldsAt(net, Moving(Worst(t, |Secs(net, req)|), t, net, req).net, req, k, p)
    ensures Holder(net, phys, req, k, p)
  {
    var u := Uplink(PrevMasters(net, req.ifaces), req.target, req.ifaces);
    var luck := Worst(t, |Secs(net, req)|);
    UplinkOrders(net, phys, req, u);
    WorstMove(t, net, phys, req, u);
    WorstPrepared(t, net, req);
    if p !in req.ifaces[..k] && p != u {
      assert Same(Prepared(luck, t, net, req).net, Moving(luck, t, net, req).net, p);
      if p !in Secs(net, req) {
        PreparedLeaves(luck, t, net, req, p);
        assert p in net.master ==> net.master[p] in net.links;
      }
    }
  }

  lemma WorstCutsOff(t: nat, net: Net, phys: set<string>, req: Request, k: nat)
    requires Connected(net, phys, req) && k < |req.ifaces| && !HasHolder(net, phys, req, k)
    ensures var luck := Worst(t, |Secs(net, req)|);
            RollsBack(luck, t, net, req) && !NeverCutOff(PuttingBack(luck, t, net, req).log, phys, req.name, req.target)
  {
    var luck := Worst(t, |Secs(net, req)|);
    var u := Uplink(PrevMasters(net, req.ifaces), req.target, req.ifaces);
    UncoveredHasUplink(net, phys, req, k);
    UplinkOrders(net, phys, req, u);
    WorstMove(t, net, phys, req, u);
    RollbackContinuity(luck, t, net, phys, req);
    var f := Moving(luck, t, net, req).net;
    forall p | p in phys && p != req.ifaces[k] ensures !HoldsAt(net, f, req, k, p) {
      assert !Holder(net, phys, req, k, p);
      if HoldsAt(net, f, req, k, p) { WorstHolds(t, net, phys, req, k, p); }
    }
    assert !HeldWithout(net, f, phys, req, k);
  }

  lemma UncoveredHasUplink(net: Net, phys: set<string>, req: Request, k: nat)
    requires Connected(net, phys, req) && k < |req.ifaces| && !HasHolder(net, phys, req, k)
    ensures Uplink(PrevMasters(net, req.ifaces), req.target, req.ifaces) != ""
  {
    var p :| Attached(net, phys, req, p);
    assert !Holder(net, phys, req, k, p);
    assert p in net.master;
    if p in req.ifaces { AttachedHasUplink(PrevMasters(net, req.ifaces), req.target, req.ifaces, p); }
  }

  /** Main result on the rollback: it keeps the bridge connected after every command, whatever failed
      before it, exactly when at every member another attached link can hold the bridge that the
      forward commands leave alone or the rollback has already put back. */
  lemma RollbackSafeExactly(t: nat, net: Net, phys: set<string>, req: Request)
    requires Connected(net, phys, req)
    ensures (forall luck: Luck | RollsBack(luck, t, net, req) ::
               NeverCutOff(PuttingBack(luck, t, net, req).log, phys, req.name, req.target))
            <==> Covered(net, phys, req)
  {
    if Covered(net, phys, req) {
      forall luck: Luck | RollsBack(luck, t, net, req)
        ensures NeverCutOff(PuttingBack(luck, t, net, req).log, phys, req.name, req.target)
      {
        CoveredHolds(luck, t, net, phys, req);
      }
    } else {
      var k: nat :| k < |req.ifaces| && !HasHolder(net, phys, req, k);
      WorstCutsOff(t, net, phys, req, k);
    }
  }

  lemma CoveredHolds(luck: Luck, t: nat, net: Net, phys: set<string>, req: Request)
    requires Connected(net, phys, req) && Covered(net, phys, req) && RollsBack(luck, t, net, req)
    ensures NeverCutOff(PuttingBack(luck, t, net, req).log, phys, req.name, req.target)
  {
    var f := Moving(luck, t, net, req).net;
    forall k: nat | k < |req.ifaces| ensures HeldWithout(net, f, phys, req, k) {
      assert HasHolder(net, phys, req, k);
      var p :| Holder(net, phys, req, k, p);
      HolderHolds(luck, t, net, phys, req, k, p);
    }
    RollbackContinuity(luck, t, net, phys, req);
  }

  // ---- when the rollback's own commands fail too ----

  /** An attached link that is up and not requested. */
  ghost predicate Spare(net: Net, phys: set<string>, req: Request) {
    exists p :: Attached(net, phys, req, p) && p !in req.ifaces
  }

  /** No step takes `a` off the bridge or down. */
  ghost predicate Spares(steps: seq<Step>, bond: string, a: string) {
    forall s | s in steps :: !s.Bail? && (if s.cmd.Del? then s.cmd.link == bond else Subject(s.cmd) != a)
  }

  lemma {:induction false} SpareCarries(luck: Luck, t: nat, n: Net, steps: seq<Step>, phys: set<string>, bond: string, target: string, a: string)
    requires Spares(steps, bond, a) && a in phys && a != bond && target != bond && target != ""
    requires a in n.up && MasterOf(n, a) == target
    ensures NeverCutOff(Steps(luck, t, n, steps).log, phys, bond, target)
    decreases |steps|
  {
    if steps != [] {
      var next := Attempt(luck, t, n, steps[0].cmd);
      assert forall s | s in steps[1..] :: s in steps;
      assert steps[0] in steps;
      StillAttached(luck, t, n, steps[0], bond, target, a);
      SpareCarries(luck, t + 1, next, steps[1..], phys, bond, target, a);
      assert Carries(next, bond, target, a);
    }
  }

  lemma StillAttached(luck: Luck, t: nat, n: Net, s: Step, bond: string, target: string, a: string)
    requires !s.Bail? && (if s.cmd.Del? then s.cmd.link == bond else Subject(s.cmd) != a)
    requires a != bond && target != bond && target != "" && a in n.up && MasterOf(n, a) == target
    ensures var next := Attempt(luck, t, n, s.cmd); a in next.up && MasterOf(next, a) == target
  {
  }

  lemma {:induction false} UndoLeavesAlone(prev: map<string, string>, ifaces: seq<string>, a: string)
    requires a !in ifaces
    ensures LeavesAlone(UndoMembers(prev, ifaces), a)
  {
    if ifaces != [] {
      assert ifaces == ifaces[..|ifaces| - 1] + [ifaces[|ifaces| - 1]];
      UndoLeavesAlone(prev, ifaces[..|ifaces| - 1], a);
    }
  }

  lemma RollbackSpares(prev: map<string, string>, req: Request, a: string)
    requires a !in req.ifaces && a != req.name
    ensures Spares(Rollback(prev, req), req.name, a)
  {
    UndoLeavesAlone(prev, req.ifaces, a);
  }

  lemma OrderRequested(net: Net, req: Request)
    ensures forall x | x in Order(net, req) :: x in req.ifaces
  {
    SortedMembers(PrevMasters(net, req.ifaces), req.target, req.ifaces);
  }

  lemma SpareHolds(luck: Luck, t: nat, net: Net, phys: set<string>, req: Request)
    requires Connected(net, phys, req) && Spare(net, phys, req)
    ensures NeverCutOff(PuttingBack(luck, t, net, req).log, phys, req.name, req.target)
  {
    var a :| Attached(net, phys, req, a) && a !in req.ifaces;
    OrderRequested(net, req);
    OutsidersStay(luck, t, net, req, a);
    RollbackSpares(PrevMasters(net, req.ifaces), req, a);
    var fwd := Moving(luck, t, net, req);
    SpareCarries(luck, fwd.t, fwd.net, Rollback(PrevMasters(net, req.ifaces), req), phys, req.name, req.target, a);
  }

  /** Nothing joins anything any more. */
  ghost predicate NoJoins(luck: Luck, t: nat, steps: seq<Step>) {
    forall i | 0 <= i < |steps| :: steps[i].Try? && (luck(t + i) <==> !steps[i].cmd.Master?)
  }

  lemma NoJoinsTail(luck: Luck, t: nat, steps: seq<Step>)
    requires steps != [] && NoJoins(luck, t, steps)
    ensures NoJoins(luck, t + 1, steps[1..]) && steps[0].Try? && (luck(t) <==> !steps[0].cmd.Master?)
  {
    assert luck(t + 0) <==> !steps[0].cmd.Master?;
    forall i | 0 <= i < |steps[1..]| ensures steps[1..][i].Try? && (luck(t + 1 + i) <==> !steps[1..][i].cmd.Master?) {
      assert steps[1..][i] == steps[i + 1];
    }
  }

  lemma {:induction false} TriesGoOn(luck: Luck, t: nat, n: Net, steps: seq<Step>)
    requires forall s | s in steps :: s.Try?
    ensures var out := Steps(luck, t, n, steps);
            out.ok && out.t == t + |steps| && (steps != [] ==> out.net in out.log)
    decreases |steps|
  {
    if steps != [] {
      assert forall s | s in steps[1..] :: s in steps;
      TriesGoOn(luck, t + 1, Attempt(luck, t, n, steps[0].cmd), steps[1..]);
    }
  }

  lemma {:induction false} Orphaned(luck: Luck, t: nat, n: Net, steps: seq<Step>)
    requires NoJoins(luck, t, steps) && forall s | s in steps :: s.Try? && !s.cmd.Del?
    ensures var out := Steps(luck, t, n, steps);
            && out.net.master.Keys <= n.master.Keys && (forall x | x in out.net.master :: out.net.master[x] == n.master[x])
            && forall x | Try(NoMaster(x)) in steps :: x !in out.net.master
    decreases |steps|
  {
    if steps != [] {
      NoJoinsTail(luck, t, steps);
      assert forall s | s in steps[1..] :: s in steps;
      Orphaned(luck, t + 1, Attempt(luck, t, n, steps[0].cmd), steps[1..]);
      assert steps == [steps[0]] + steps[1..];
    }
  }

  lemma {:induction false} UndoFrees(prev: map<string, string>, ifaces: seq<string>)
    ensures forall s | s in UndoMembers(prev, ifaces) :: s.Try? && !s.cmd.Del?
    ensures forall x | x in ifaces :: Try(NoMaster(x)) in UndoMembers(prev, ifaces)
  {
    if ifaces != [] {
      var init, last := ifaces[..|ifaces| - 1], ifaces[|ifaces| - 1];
      assert ifaces == init + [last];
      UndoFrees(prev, init);
      assert UndoOne(prev, last)[0] == Try(NoMaster(last));
    }
  }

  /** Raising the bond fails, and then every command that would give a member its master back. */
  function Dire(t: nat, undo: seq<Step>): Luck {
    (k: nat) => k != t + 1 && (t + 2 <= k < t + 2 + |undo| && !undo[k - (t + 2)].Bail? ==> !undo[k - (t + 2)].cmd.Master?)
  }

  lemma FailsAtOnce(luck: Luck, t: nat, net: Net, req: Request)
    requires req.ifaces != [] && !luck(t + 1)
    ensures Moving(luck, t, net, req) == Outcome(Added(net, req), t + 2, false, [Added(net, req)])
  {
    var fwd := Forward(PrevMasters(net, req.ifaces), req);
    assert fwd[0] == Must(Up(req.name));
  }

  lemma DireNoJoins(t: nat, undo: seq<Step>)
    requires forall s | s in undo :: s.Try?
    ensures NoJoins(Dire(t, undo), t + 2, undo)
  {
    forall i | 0 <= i < |undo| ensures undo[i].Try? && (Dire(t, undo)(t + 2 + i) <==> !undo[i].cmd.Master?) {
      assert undo[i] in undo;
    }
  }

  /** Without its members' masters the bridge has nobody. */
  lemma NobodyLeft(net: Net, bare: Net, phys: set<string>, req: Request)
    requires Connected(net, phys, req) && !Spare(net, phys, req)
    requires bare.master.Keys <= net.master.Keys && (forall x | x in bare.master :: bare.master[x] == net.master[x])
    requires forall x | x in req.ifaces :: x !in bare.master
    requires forall x | x !in req.ifaces && x != req.name && x in bare.up :: x in net.up
    ensures !Uplinked(bare, phys, req.name, req.target)
  {
    forall p | p in phys ensures !Carries(bare, req.name, req.target, p) {
      assert p in net.master ==> net.master[p] != req.name;
      assert Attached(net, phys, req, p) ==> p in req.ifaces;
    }
  }

  lemma DireUndo(t: nat, net: Net, req: Request) returns (bare: Net)
    requires req.ifaces != []
    ensures var undo := UndoMembers(PrevMasters(net, req.ifaces), req.ifaces);
            bare in Steps(Dire(t, undo), t + 2, Added(net, req), Rollback(PrevMasters(net, req.ifaces), req)).log
    ensures bare.master.Keys <= net.master.Keys && (forall x | x in bare.master :: bare.master[x] == net.master[x])
    ensures forall x | x in req.ifaces :: x !in bare.master
    ensures forall x | x !in req.ifaces && x != req.name && x in bare.up :: x in net.up
  {
    var undo := UndoMembers(PrevMasters(net, req.ifaces), req.ifaces);
    UndoFrees(PrevMasters(net, req.ifaces), req.ifaces);
    DireNoJoins(t, undo);
    TriesGoOn(Dire(t, undo), t + 2, Added(net, req), undo);
    Orphaned(Dire(t, undo), t + 2, Added(net, req), undo);
    StepsConcat(Dire(t, undo), t + 2, Added(net, req), undo, [Try(Down(req.name)), Try(Del(req.name))]);
    bare := Steps(Dire(t, undo), t + 2, Added(net, req), undo).net;
    assert Try(NoMaster(req.ifaces[0])) in undo;
    forall x | x !in req.ifaces && x != req.name && x in bare.up ensures x in net.up {
      UndoLeavesAlone(PrevMasters(net, req.ifaces), req.ifaces, x);
      StepsLeaveAlone(Dire(t, undo), t + 2, Added(net, req), undo, x);
    }
  }

  lemma DireCutsOff(t: nat, net: Net, phys: set<string>, req: Request)
    requires Connected(net, phys, req) && !Spare(net, phys, req)
    ensures var luck := Dire(t, UndoMembers(PrevMasters(net, req.ifaces), req.ifaces));
            luck(t) && !Moving(luck, t, net, req).ok
            && !NeverCutOff(PuttingBack(luck, t, net, req).log, phys, req.name, req.target)
  {
    var luck := Dire(t, UndoMembers(PrevMasters(net, req.ifaces), req.ifaces));
    FailsAtOnce(luck, t, net, req);
    var bare := DireUndo(t, net, req);
    NobodyLeft(net, bare, phys, req);
  }

  /** Whatever fails, in the rollback as well: the bridge stays connected through every rollback of a
      request exactly when an attached link that is up is not requested. */
  lemma RollbackSafeWhateverFails(t: nat, net: Net, phys: set<string>, req: Request)
    requires Connected(net, phys, req)
    ensures (forall luck: Luck | luck(t) && !Moving(luck, t, net, req).ok ::
               NeverCutOff(PuttingBack(luck, t, net, req).log, phys, req.name, req.target))
            <==> Spare(net, phys, req)
  {
    if Spare(net, phys, req) {
      forall luck: Luck | luck(t) && !Moving(luck, t, net, req).ok
        ensures NeverCutOff(PuttingBack(luck, t, net, req).log, phys, req.name, req.target)
      {
        SpareHolds(luck, t, net, phys, req);
      }
    } else {
      DireCutsOff(t, net, phys, req);
    }
  }

  // ---- corollaries ----

  /** Another member than the uplink that is up, or is not attached and comes up in the bond. */
  ghost predicate Second(net: Net, req: Request) {
    exists x :: x in req.ifaces && IsSecond(net, req, x)
  }

  ghost predicate IsSecond(net: Net, req: Request, x: string) {
    x != Uplink(PrevMasters(net, req.ifaces), req.target, req.ifaces) && (x in net.up || MasterOf(net, x) != req.target)
  }

  lemma SecondStays(net: Net, phys: set<string>, req: Request)
    requires Connected(net, phys, req) && (Spare(net, phys, req) || Second(net, req))
    ensures Stays(net, phys, req) || Secs(net, req) != []
  {
    SortedMembers(PrevMasters(net, req.ifaces), req.target, req.ifaces);
    if x :| x in req.ifaces && IsSecond(net, req, x) {
      if MasterOf(net, x) == req.target {
        assert AttachedTo(PrevMasters(net, req.ifaces), req.target, x) && Attached(net, phys, req, x);
      }
    } else {
      var p :| Attached(net, phys, req, p) && p !in req.ifaces;
      OrderRequested(net, req);
    }
  }

  lemma StaysIsSecond(net: Net, phys: set<string>, req: Request)
    requires Connected(net, phys, req) && (Stays(net, phys, req) || Secs(net, req) != [])
    ensures Spare(net, phys, req) || Second(net, req)
  {
    SortedMembers(PrevMasters(net, req.ifaces), req.target, req.ifaces);
    if Secs(net, req) != [] {
      assert Secs(net, req)[0] in Secs(net, req) && IsSecond(net, req, Secs(net, req)[0]);
    } else {
      var p :| Attached(net, phys, req, p) && p !in Order(net, req);
      assert p in net.master && (p in req.ifaces ==> IsSecond(net, req, p));
    }
  }

  /** With every command working the secondaries are all up when the uplink moves. */
  lemma LuckySafelyMoved(luck: Luck, t: nat, net: Net, phys: set<string>, req: Request)
    requires Connected(net, phys, req) && forall k :: luck(k)
    ensures SafelyMoved(luck, t, net, req) <==> Secs(net, req) != []
    ensures Moving(luck, t, net, req).ok
  {
    var n1, secs := Added(net, req), Secs(net, req);
    var all := EnslaveAll(secs, req.name);
    RaiseEffect(n1, req);
    var n2 := Effect(n1, RaiseSteps(req));
    EnslaveAllEffect(n2, secs, req.name);
    EffectConcat(n1, RaiseSteps(req), all);
    LuckySteps(luck, t + 1, n1, RaiseSteps(req) + all);
    if secs != [] { assert Joined(n2, Prepared(luck, t, net, req).net, secs, req.name, secs[0]); }
    ForwardEffect(net, req);
    LuckySteps(luck, t + 1, n1, Forward(PrevMasters(net, req.ifaces), req));
  }

  /** With every command working, the bridge has an up uplink after each single command exactly when an
      attached link that is up is not requested, or another member than the uplink is up or not attached. */
  lemma ContinuityExact(luck: Luck, t: nat, net: Net, route: DefaultRoute, phys: set<string>, req: Request)
    requires Accepted(net, route, req) && Connected(net, phys, req) && forall k :: luck(k)
    ensures NeverCutOff(Create(luck, t, net, route, req).out.log, phys, req.name, req.target)
            <==> Spare(net, phys, req) || Second(net, req)
  {
    LuckySafelyMoved(luck, t, net, phys, req);
    CreateContinuity(luck, t, net, route, phys, req);
    if Spare(net, phys, req) || Second(net, req) { SecondStays(net, phys, req); }
    if Stays(net, phys, req) || Secs(net, req) != [] { StaysIsSecond(net, phys, req); }
  }

  /** Every command works but the one that brings the secondary up. */
  function AllButOne(t: nat): Luck {
    (k: nat) => k != t
  }

  /** With one secondary and the only uplink requested, a single failure the code ignores is enough:
      the request succeeds, and on the way the bridge was cut off. */
  lemma OneFailureCutsOff(t: nat, net: Net, route: DefaultRoute, phys: set<string>, req: Request)
    requires Accepted(net, route, req) && Connected(net, phys, req) && !Stays(net, phys, req) && |Secs(net, req)| == 1
    ensures var made := Create(AllButOne(t + 7), t, net, route, req);
            made.verdict == Created && !NeverCutOff(made.out.log, phys, req.name, req.target)
  {
    var luck := AllButOne(t + 7);
    assert FailsUps(luck, t + 3, 1);
    PreparedDown(luck, t, net, req);
    var u := SoleUplink(net, phys, req);
    MovingInTwo(luck, t, net, req, u);
    var mid := Prepared(luck, t, net, req);
    EnslaveRun(luck, mid.t, mid.net, u, req.name);
    AddedThen(luck, t, net, route, req);
    CreateContinuity(luck, t, net, route, phys, req);
  }
}
