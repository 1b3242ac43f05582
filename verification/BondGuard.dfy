/** Which bond requests are refused, and which failures a request survives: both written out over
  the network and the outcomes of single commands. */
module BondGuard {
  import opened BondTeardown
  import opened HostBond

  // ---- the guard ----

  /** Following masters upwards from `x` for `n` steps leads to `y`. */
  predicate Reaches(net: Net, x: string, n: nat, y: string)
    decreases n
  {
    if n == 0 then x == y else MasterOf(net, x) != "" && Reaches(net, MasterOf(net, x), n - 1, y)
  }

  /** `x` carries the default route: the route's device is `x`, its master or its master's master. */
  ghost predicate Carries(net: Net, route: DefaultRoute, x: string) {
    && route.dev != ""
    && (Reaches(net, x, 0, route.dev) || Reaches(net, x, 1, route.dev) || Reaches(net, x, 2, route.dev))
  }

  ghost predicate AnotherPort(net: Net, route: DefaultRoute, x: string) {
    exists y :: y != x && y in route.phys && MasterOf(net, y) == route.dev
  }

  /** `x` is one of several physical ports of the bridge that has the default route. */
  ghost predicate Redundant(net: Net, route: DefaultRoute, x: string) {
    route.isBridge && x != route.dev && x in route.phys && MasterOf(net, x) == route.dev && AnotherPort(net, route, x)
  }

  lemma OthersCount(ports: set<string>, x: string)
    requires x in ports
    ensures |ports| >= 2 <==> exists y :: y != x && y in ports
  {
    var rest := ports - {x};
    assert |ports| == |rest| + 1;
    if |ports| >= 2 {
      var y :| y in rest;
      assert y != x && y in ports;
    } else {
      assert rest == {};
      forall y | y != x ensures y !in ports { assert y !in rest; }
    }
  }

  lemma PortsCount(net: Net, route: DefaultRoute, x: string)
    requires x in route.phys && MasterOf(net, x) == route.dev
    ensures x in Ports(net, route) && (|Ports(net, route)| >= 2 <==> AnotherPort(net, route, x))
  {
    var ports := Ports(net, route);
    OthersCount(ports, x);
    if y :| y != x && y in ports { assert AnotherPort(net, route, x); }
    if AnotherPort(net, route, x) {
      var y :| y != x && y in route.phys && MasterOf(net, y) == route.dev;
      assert y in ports;
    }
  }

  lemma ReachesFew(net: Net, x: string, y: string)
    ensures Reaches(net, x, 0, y) <==> x == y
    ensures Reaches(net, x, 1, y) <==> MasterOf(net, x) != "" && MasterOf(net, x) == y
    ensures Reaches(net, x, 2, y) <==>
              MasterOf(net, x) != "" && MasterOf(net, MasterOf(net, x)) != "" && MasterOf(net, MasterOf(net, x)) == y
  {
    var m := MasterOf(net, x);
    assert Reaches(net, m, 1, y) <==> MasterOf(net, m) != "" && Reaches(net, MasterOf(net, m), 0, y);
    assert Reaches(net, x, 1, y) <==> m != "" && Reaches(net, m, 0, y);
    assert Reaches(net, x, 2, y) <==> m != "" && Reaches(net, m, 1, y);
  }

  lemma UplinkExactly(net: Net, route: DefaultRoute, x: string)
    ensures IsPrimaryUplink(net, route, x) <==> Carries(net, route, x) && !Redundant(net, route, x)
  {
    ReachesFew(net, x, route.dev);
    if x in route.phys && MasterOf(net, x) == route.dev {
      PortsCount(net, route, x);
    } else {
      assert x !in Ports(net, route);
    }
  }

  /** Exactly when a request is refused, and that a refusal issues no command: a member may carry the
      default route only when the route's device is the target, or when it is a port of the bridge
      that has the route and the bridge has another one. */
  lemma RefusedExactly(luck: Luck, t: nat, net: Net, route: DefaultRoute, req: Request)
    ensures var r := Create(luck, t, net, route, req);
            && (r.verdict != Refused <==>
                  && req.name != "" && req.name !in net.links && |req.ifaces| >= 2
                  && (req.target != "" ==> req.target in net.links && req.cidr.None? && req.gateway.None?)
                  && (forall x | x in req.ifaces ::
                        && x != "" && x in net.links
                        && (Carries(net, route, x) ==> Redundant(net, route, x) || req.target == route.dev)))
            && (r.verdict == Refused ==> r.out.net == net && r.out.t == t && r.out.log == [])
  {
    forall x { UplinkExactly(net, route, x); }
  }

  /** The device of the default route itself, and a member of a bond on its bridge, are enslaved only
      into a bond on that very device. */
  lemma DeviceOnlyToItself(luck: Luck, t: nat, net: Net, route: DefaultRoute, req: Request, x: string)
    requires Create(luck, t, net, route, req).verdict != Refused && route.dev != "" && x in req.ifaces
    ensures x == route.dev ==> req.target == route.dev
    ensures !route.isBridge && MasterOf(net, x) == route.dev ==> req.target == route.dev
    ensures MasterOf(net, x) != "" && MasterOf(net, x) != route.dev && MasterOf(net, MasterOf(net, x)) == route.dev
            ==> req.target == route.dev
  {
    RefusedExactly(luck, t, net, route, req);
    ReachesFew(net, x, route.dev);
  }

  // ---- the failures a request survives ----

  /** `x` is the first of `ifaces` that hangs on `target`. */
  ghost predicate FirstOn(net: Net, target: string, ifaces: seq<string>, i: nat) {
    i < |ifaces| && MasterOf(net, ifaces[i]) == target && forall k | 0 <= k < i :: MasterOf(net, ifaces[k]) != target
  }

  /** The primary is the one asked for; in active-backup, when none is, the first member that hangs on
      the target, or else the first member. */
  lemma PrimaryExactly(net: Net, req: Request)
    requires req.ifaces != [] && "" !in req.ifaces
    ensures req.mode != ActiveBackup || req.primary != "" ==> ChosenPrimary(net, req) == req.primary
    ensures req.mode == ActiveBackup && req.primary == "" ==>
              && (forall i: nat | FirstOn(net, req.target, req.ifaces, i) :: ChosenPrimary(net, req) == req.ifaces[i])
              && ((forall x | x in req.ifaces :: MasterOf(net, x) != req.target) ==> ChosenPrimary(net, req) == req.ifaces[0])
  {
    if i: nat :| FirstOn(net, req.target, req.ifaces, i) {
      FirstIsDefault(net, req.target, req.ifaces, i);
      forall j: nat | FirstOn(net, req.target, req.ifaces, j) { FirstIsDefault(net, req.target, req.ifaces, j); }
    }
    if forall x | x in req.ifaces :: MasterOf(net, x) != req.target { NoDefault(net, req.target, req.ifaces); }
  }

  lemma {:induction false} FirstIsDefault(net: Net, target: string, ifaces: seq<string>, i: nat)
    requires FirstOn(net, target, ifaces, i)
    ensures DefaultPrimary(net, target, ifaces) == ifaces[i] && ifaces[i] in ifaces
  {
    if i > 0 {
      assert MasterOf(net, ifaces[0]) != target;
      FirstIsDefault(net, target, ifaces[1..], i - 1);
    }
  }

  lemma {:induction false} NoDefault(net: Net, target: string, ifaces: seq<string>)
    requires forall x | x in ifaces :: MasterOf(net, x) != target
    ensures DefaultPrimary(net, target, ifaces) == ""
  {
    if ifaces != [] {
      assert ifaces[0] in ifaces && forall x | x in ifaces[1..] :: x in ifaces;
      NoDefault(net, target, ifaces[1..]);
    }
  }

  // ---- the order of enslavement ----

  lemma {:induction false} NoneAttached(prev: map<string, string>, target: string, ifaces: seq<string>)
    requires target == "" || forall x | x in ifaces :: Lookup(prev, x) != target
    ensures Secondaries(prev, target, ifaces) == ifaces && Uplink(prev, target, ifaces) == ""
  {
    if ifaces != [] {
      var init, last := ifaces[..|ifaces| - 1], ifaces[|ifaces| - 1];
      assert last in ifaces && ifaces == init + [last] && forall x | x in init :: x in ifaces;
      NoneAttached(prev, target, init);
    }
  }

  lemma {:induction false} OneAttached(prev: map<string, string>, target: string, ifaces: seq<string>, u: nat)
    requires target != "" && u < |ifaces| && Lookup(prev, ifaces[u]) == target
    requires forall i | 0 <= i < |ifaces| && i != u :: Lookup(prev, ifaces[i]) != target
    ensures Secondaries(prev, target, ifaces) == ifaces[..u] + ifaces[u + 1..] && Uplink(prev, target, ifaces) == ifaces[u]
  {
    var n := |ifaces| - 1;
    var init := ifaces[..n];
    assert ifaces == init + [ifaces[n]];
    if u == n {
      NoneAttached(prev, target, init);
      assert ifaces[..u] + ifaces[u + 1..] == init;
    } else {
      OneAttached(prev, target, init, u);
      assert init[..u] == ifaces[..u] && init[u + 1..] + [ifaces[n]] == ifaces[u + 1..];
      assert init[..u] + init[u + 1..] + [ifaces[n]] == init[..u] + (init[u + 1..] + [ifaces[n]]);
    }
  }

  /** The order in which members move: as requested, except that the one member that hangs on the target
      bridge goes last.  Without a target nobody is singled out. */
  lemma OrderExactly(net: Net, target: string, ifaces: seq<string>)
    requires "" !in ifaces
    ensures target == "" || (forall x | x in ifaces :: MasterOf(net, x) != target) ==>
              Sorted(PrevMasters(net, ifaces), target, ifaces) == ifaces
    ensures forall u: nat | target != "" && u < |ifaces| && MasterOf(net, ifaces[u]) == target
                            && (forall i | 0 <= i < |ifaces| && i != u :: MasterOf(net, ifaces[i]) != target) ::
              Sorted(PrevMasters(net, ifaces), target, ifaces) == ifaces[..u] + ifaces[u + 1..] + [ifaces[u]]
  {
    var prev := PrevMasters(net, ifaces);
    assert forall x | x in ifaces :: Lookup(prev, x) == MasterOf(net, x);
    if target == "" || (forall x | x in ifaces :: MasterOf(net, x) != target) { NoneAttached(prev, target, ifaces); }
    forall u: nat | target != "" && u < |ifaces| && MasterOf(net, ifaces[u]) == target
                    && (forall i | 0 <= i < |ifaces| && i != u :: MasterOf(net, ifaces[i]) != target)
      ensures Sorted(prev, target, ifaces) == ifaces[..u] + ifaces[u + 1..] + [ifaces[u]]
    {
      assert ifaces[u] in ifaces && forall i | 0 <= i < |ifaces| :: Lookup(prev, ifaces[i]) == MasterOf(net, ifaces[i]);
      OneAttached(prev, target, ifaces, u);
    }
  }

  /** The bond is made first, and only in active-backup with a primary. */
  lemma BondIsMadeFirst(luck: Luck, t: nat, net: Net, route: DefaultRoute, req: Request)
    requires Accepted(net, route, req) && luck(t)
    ensures var log := Create(luck, t, net, route, req).out.log;
            && log != [] && log[0].links == net.links + {req.name} && log[0].master == net.master && log[0].up == net.up
            && log[0].primary == if req.mode == ActiveBackup && ChosenPrimary(net, req) != ""
                                 then net.primary[req.name := ChosenPrimary(net, req)] else net.primary
  {
    AddedThen(luck, t, net, route, req);
    assert Create(luck, t, net, route, req).out.log[0] == Apply(net, AddBond(req.name, PrimaryArg(net, req)));
  }

  lemma OneStep(luck: Luck, t: nat, net: Net, s: Step)
    ensures var o := Steps(luck, t, net, [s]);
            && (o.ok <==> s.Try? || (s.Must? && luck(t)))
            && (o.ok ==> o.t == t + 1)
  {
    assert [s][1..] == [];
  }

  lemma {:induction false} TriesOk(luck: Luck, t: nat, net: Net, steps: seq<Step>)
    requires forall s | s in steps :: s.Try?
    ensures Steps(luck, t, net, steps).ok && Steps(luck, t, net, steps).t == t + |steps|
    decreases |steps|
  {
    if steps != [] {
      assert steps[0].Try? && forall s | s in steps[1..] :: s in steps;
      TriesOk(luck, t + 1, Attempt(luck, t, net, steps[0].cmd), steps[1..]);
    }
  }

  /** Of the five commands for a member only joining the bond counts. */
  lemma EnslaveOk(luck: Luck, t: nat, net: Net, x: string, bond: string)
    ensures var o := Steps(luck, t, net, Enslave(x, bond));
            (o.ok <==> luck(t + 3)) && (o.ok ==> o.t == t + 5)
  {
    var s := Enslave(x, bond);
    var a, b, c := [s[0], s[1], s[2]], [s[3]], [s[4]];
    assert s == a + b + c;
    StepsConcat(luck, t, net, a + b, c);
    StepsConcat(luck, t, net, a, b);
    TriesOk(luck, t, net, a);
    var first := Steps(luck, t, net, a);
    OneStep(luck, first.t, first.net, s[3]);
    var second := Steps(luck, first.t, first.net, b);
    OneStep(luck, second.t, second.net, s[4]);
  }

  /** The `i`-th of the members enslaved from tick `t` on joins the bond: the fourth of its commands works. */
  predicate Joins(luck: Luck, t: nat, i: nat) {
    luck(t + 5 * i + 3)
  }

  ghost predicate AllJoin(luck: Luck, t: nat, n: nat) {
    forall i | 0 <= i < n :: Joins(luck, t, i)
  }

  lemma AllJoinSnoc(luck: Luck, t: nat, n: nat)
    ensures AllJoin(luck, t, n + 1) <==> AllJoin(luck, t, n) && luck(t + 5 * n + 3)
  {
    assert Joins(luck, t, n) <==> luck(t + 5 * n + 3);
  }

  lemma BothOk(luck: Luck, t: nat, net: Net, a: seq<Step>, b: seq<Step>)
    ensures var first, both := Steps(luck, t, net, a), Steps(luck, t, net, a + b);
            && (both.ok <==> first.ok && Steps(luck, first.t, first.net, b).ok)
            && (both.ok ==> both.t == Steps(luck, first.t, first.net, b).t)
  {
    StepsConcat(luck, t, net, a, b);
  }

  lemma {:induction false} EnslaveAllOk(luck: Luck, t: nat, net: Net, sorted: seq<string>, bond: string)
    ensures var o := Steps(luck, t, net, EnslaveAll(sorted, bond));
            && (o.ok <==> AllJoin(luck, t, |sorted|))
            && (o.ok ==> o.t == t + 5 * |sorted|)
    decreases |sorted|
  {
    if sorted != [] {
      var n := |sorted| - 1;
      var a, b := EnslaveAll(sorted[..n], bond), Enslave(sorted[n], bond);
      assert EnslaveAll(sorted, bond) == a + b;
      EnslaveAllOk(luck, t, net, sorted[..n], bond);
      BothOk(luck, t, net, a, b);
      AllJoinSnoc(luck, t, n);
      var first := Steps(luck, t, net, a);
      if first.ok { EnslaveOk(luck, t + 5 * n, first.net, sorted[n], bond); }
    }
  }

  lemma RaiseOk(luck: Luck, t: nat, net: Net, req: Request)
    ensures var o := Steps(luck, t, net, RaiseSteps(req));
            && (o.ok <==> luck(t) && (req.target != "" ==> luck(t + 1)))
            && (o.ok ==> o.t == t + if req.target != "" then 2 else 1)
  {
    var a, b := [Must(Up(req.name))], if req.target != "" then [Must(Master(req.name, req.target))] else [];
    OneStep(luck, t, net, a[0]);
    StepsConcat(luck, t, net, a, b);
    if req.target != "" { OneStep(luck, t + 1, Steps(luck, t, net, a).net, b[0]); }
  }

  /** When an address or a gateway is given it must parse, and the address must be taken; the route
      need not. */
  lemma AddressOk(luck: Luck, t: nat, net: Net, req: Request)
    ensures Steps(luck, t, net, AddressSteps(req) + GatewaySteps(req)).ok <==>
              || req.target != ""
              || ((req.cidr.Some? ==> req.cidr.value && luck(t)) && (req.gateway.Some? ==> req.gateway.value))
  {
    var a, b := AddressSteps(req), GatewaySteps(req);
    StepsConcat(luck, t, net, a, b);
    if a != [] && !a[0].Bail? { OneStep(luck, t, net, a[0]); }
    var first := Steps(luck, t, net, a);
    if b != [] && !b[0].Bail? { OneStep(luck, first.t, first.net, b[0]); }
  }

  /** The members are enslaved from this tick on. */
  function JoinTick(t: nat, req: Request): nat {
    t + if req.target != "" then 3 else 2
  }

  /** The commands that must work, from the one that adds the bond on. */
  ghost predicate NeededWork(luck: Luck, t: nat, req: Request, n: nat) {
    && luck(t) && luck(t + 1) && (req.target != "" ==> luck(t + 2))
    && AllJoin(luck, JoinTick(t, req), n)
    && (req.target == "" && req.cidr.Some? ==> req.cidr.value && luck(JoinTick(t, req) + 5 * n))
    && (req.target == "" && req.gateway.Some? ==> req.gateway.value)
  }

  lemma JoinAndAddressOk(luck: Luck, t: nat, net: Net, sorted: seq<string>, req: Request)
    ensures Steps(luck, t, net, EnslaveAll(sorted, req.name) + (AddressSteps(req) + GatewaySteps(req))).ok <==>
              && AllJoin(luck, t, |sorted|)
              && (req.target == "" && req.cidr.Some? ==> req.cidr.value && luck(t + 5 * |sorted|))
              && (req.target == "" && req.gateway.Some? ==> req.gateway.value)
  {
    var b, c := EnslaveAll(sorted, req.name), AddressSteps(req) + GatewaySteps(req);
    BothOk(luck, t, net, b, c);
    EnslaveAllOk(luck, t, net, sorted, req.name);
    var first := Steps(luck, t, net, b);
    AddressOk(luck, first.t, first.net, req);
  }

  lemma ForwardOk(luck: Luck, t: nat, net: Net, prev: map<string, string>, req: Request)
    requires luck(t)
    ensures Steps(luck, t + 1, net, Forward(prev, req)).ok <==>
              NeededWork(luck, t, req, |Sorted(prev, req.target, req.ifaces)|)
  {
    var sorted := Sorted(prev, req.target, req.ifaces);
    var a, b := RaiseSteps(req), EnslaveAll(sorted, req.name) + (AddressSteps(req) + GatewaySteps(req));
    assert Forward(prev, req) == a + b;
    BothOk(luck, t + 1, net, a, b);
    RaiseOk(luck, t + 1, net, req);
    var first := Steps(luck, t + 1, net, a);
    if first.ok { JoinAndAddressOk(luck, JoinTick(t, req), first.net, sorted, req); }
  }

  /** Which commands must work for an accepted request to succeed, of all those it issues: adding the
      bond, bringing it up, putting it on the target, each member joining, and taking the address.
      Everything else may fail. */
  lemma CreatedExactly(luck: Luck, t: nat, net: Net, route: DefaultRoute, req: Request)
    requires Accepted(net, route, req)
    ensures var v := Create(luck, t, net, route, req).verdict;
            && (v == Created <==> NeededWork(luck, t, req, |Sorted(PrevMasters(net, req.ifaces), req.target, req.ifaces)|))
            && (v == NotCreated <==> !luck(t)) && v != Refused
  {
    OneStep(luck, t, net, Must(AddBond(req.name, PrimaryArg(net, req))));
    if luck(t) {
      AddedThen(luck, t, net, route, req);
      ForwardOk(luck, t, Apply(net, AddBond(req.name, PrimaryArg(net, req))), PrevMasters(net, req.ifaces), req);
    }
  }

  // ---- the commands of a rollback and of a deletion ----

  /** How many of the members had a master. */
  function WithMaster(prev: map<string, string>, ifaces: seq<string>): nat {
    if ifaces == [] then 0
    else WithMaster(prev, ifaces[..|ifaces| - 1]) + if Lookup(prev, ifaces[|ifaces| - 1]) != "" then 1 else 0
  }

  predicate AllTry(steps: seq<Step>) {
    forall s | s in steps :: s.Try?
  }

  lemma {:induction false} UndoCommands(prev: map<string, string>, ifaces: seq<string>)
    ensures AllTry(UndoMembers(prev, ifaces)) && |UndoMembers(prev, ifaces)| == 2 * |ifaces| + WithMaster(prev, ifaces)
  {
    if ifaces != [] { UndoCommands(prev, ifaces[..|ifaces| - 1]); }
  }

  /** A rollback never gives up: it issues, whatever fails, two commands for every member, one more for
      every member that had a master, and two for the bond. */
  lemma RollbackIssues(luck: Luck, t: nat, net: Net, prev: map<string, string>, req: Request)
    ensures var o := Steps(luck, t, net, Rollback(prev, req));
            o.ok && o.t == t + 2 * |req.ifaces| + WithMaster(prev, req.ifaces) + 2
  {
    UndoCommands(prev, req.ifaces);
    assert AllTry(Rollback(prev, req));
    TriesOk(luck, t, net, Rollback(prev, req));
  }

  /** How many of the listed members are released one by one: all but the one that goes to the bridge. */
  function ReleasedCount(slaves: seq<string>, bridge: string, p: string): nat {
    if slaves == [] then 0
    else ReleasedCount(slaves[..|slaves| - 1], bridge, p) + if slaves[|slaves| - 1] == p && bridge != "" then 0 else 1
  }

  lemma {:induction false} ReleaseCommands(slaves: seq<string>, bridge: string, p: string)
    ensures AllTry(ReleaseSteps(slaves, bridge, p)) && |ReleaseSteps(slaves, bridge, p)| == 2 * ReleasedCount(slaves, bridge, p)
  {
    if slaves != [] { ReleaseCommands(slaves[..|slaves| - 1], bridge, p); }
  }

  /** A deletion succeeds exactly when the last of its commands does, the one that removes the bond: after
      three for the member that goes back to the bridge, two for every other one, and two for the bond. */
  lemma DeletedExactly(luck: Luck, t: nat, net: Net, bond: string, slaves: seq<string>)
    ensures var bridge, p := MasterOf(net, bond), Chosen(net, bond, slaves);
            var n := (if bridge != "" && p != "" then 3 else 0) + 2 * ReleasedCount(slaves, bridge, p) + 2;
            Delete(luck, t, net, bond, slaves).ok <==> luck(t + n)
  {
    var bridge, p := MasterOf(net, bond), Chosen(net, bond, slaves);
    var tries := ReturnSteps(bridge, p) + ReleaseSteps(slaves, bridge, p) + [Try(NoMaster(bond)), Try(Down(bond))];
    ReleaseCommands(slaves, bridge, p);
    assert AllTry(tries);
    TriesOk(luck, t, net, tries);
    assert DeleteSteps(net, bond, slaves) == tries + [Must(Del(bond))];
    BothOk(luck, t, net, tries, [Must(Del(bond))]);
    var first := Steps(luck, t, net, tries);
    OneStep(luck, first.t, first.net, Must(Del(bond)));
  }
}
