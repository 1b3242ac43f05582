/** The bond handlers as they run: commands issued one by one against the kernel's link state. */
module BondHost {
  import opened HostBond
  import opened BondTeardown

  /** What the handler sees of the kernel, and the networks it has gone through. */
  datatype View = View(net: Net, tick: nat, log: seq<Net>)

  /** Running `steps` from `before` ends in `after`, having succeeded or not. */
  ghost predicate Ran(luck: Luck, before: View, steps: seq<Step>, after: View, ok: bool) {
    var o := Steps(luck, before.tick, before.net, steps);
    ok == o.ok && after == View(o.net, o.t, before.log + o.log)
  }

  lemma RanNothing(luck: Luck, v: View)
    ensures Ran(luck, v, [], v, true)
  {
  }

  lemma RanOne(luck: Luck, v: View, s: Step)
    requires !s.Bail?
    ensures var n := Attempt(luck, v.tick, v.net, s.cmd);
            Ran(luck, v, [s], View(n, v.tick + 1, v.log + [n]), luck(v.tick) || s.Try?)
  {
    assert [s][1..] == [];
  }

  lemma Regroup(a: seq<Net>, b: seq<Net>, c: seq<Net>)
    ensures a + (b + c) == a + b + c
  {
  }

  lemma RanThen(luck: Luck, v0: View, a: seq<Step>, v1: View, b: seq<Step>, v2: View, ok: bool)
    requires Ran(luck, v0, a, v1, true) && Ran(luck, v1, b, v2, ok)
    ensures Ran(luck, v0, a + b, v2, ok)
  {
    var first := Steps(luck, v0.tick, v0.net, a);
    var second := Steps(luck, first.t, first.net, b);
    StepsConcat(luck, v0.tick, v0.net, a, b);
    Regroup(v0.log, first.log, second.log);
  }

  lemma RanShort(luck: Luck, v0: View, a: seq<Step>, v1: View, b: seq<Step>)
    requires Ran(luck, v0, a, v1, false)
    ensures Ran(luck, v0, a + b, v1, false)
  {
    StepsConcat(luck, v0.tick, v0.net, a, b);
  }

  lemma {:induction false} FailureIsFinal(luck: Luck, v0: View, sorted: seq<string>, i: nat, bond: string, v1: View)
    requires i <= |sorted| && Ran(luck, v0, EnslaveAll(sorted[..i], bond), v1, false)
    ensures Ran(luck, v0, EnslaveAll(sorted, bond), v1, false)
    decreases |sorted| - i
  {
    if i == |sorted| {
      assert sorted[..i] == sorted;
    } else {
      assert sorted[..i + 1][..i] == sorted[..i];
      RanShort(luck, v0, EnslaveAll(sorted[..i], bond), v1, Enslave(sorted[i], bond));
      FailureIsFinal(luck, v0, sorted, i + 1, bond, v1);
    }
  }

  /** The handler's phases make up `Create`. */
  ghost predicate Creates(luck: Luck, before: View, route: DefaultRoute, req: Request, after: View, v: Verdict) {
    var r := Create(luck, before.tick, before.net, route, req);
    v == r.verdict && after == View(r.out.net, r.out.t, before.log + r.out.log)
  }

  /** Adding the bond got through. */
  lemma RanAdd(luck: Luck, v0: View, req: Request, v1: View)
    requires req.ifaces != [] && Ran(luck, v0, [Must(AddBond(req.name, PrimaryArg(v0.net, req)))], v1, true)
    ensures var n1 := Apply(v0.net, AddBond(req.name, PrimaryArg(v0.net, req)));
            luck(v0.tick) && v1 == View(n1, v0.tick + 1, v0.log + [n1])
    ensures PrevMasters(v1.net, req.ifaces) == PrevMasters(v0.net, req.ifaces)
  {
    RanOne(luck, v0, Must(AddBond(req.name, PrimaryArg(v0.net, req))));
  }

  lemma CreateByPhases(luck: Luck, v0: View, route: DefaultRoute, req: Request, v1: View, v2: View, ok: bool, v3: View)
    requires Accepted(v0.net, route, req)
    requires Ran(luck, v0, [Must(AddBond(req.name, PrimaryArg(v0.net, req)))], v1, true)
    requires Ran(luck, v1, Forward(PrevMasters(v1.net, req.ifaces), req), v2, ok)
    requires ok ==> v3 == v2
    requires !ok ==> Ran(luck, v2, Rollback(PrevMasters(v1.net, req.ifaces), req), v3, true)
    ensures Creates(luck, v0, route, req, v3, if ok then Created else RolledBack)
  {
    RanAdd(luck, v0, req, v1);
    AddedThen(luck, v0.tick, v0.net, route, req);
    var fwd := Steps(luck, v1.tick, v1.net, Forward(PrevMasters(v1.net, req.ifaces), req));
    Regroup(v0.log, [v1.net], fwd.log);
    if !ok {
      var undone := Steps(luck, fwd.t, fwd.net, Rollback(PrevMasters(v1.net, req.ifaces), req));
      Regroup(v0.log, [v1.net] + fwd.log, undone.log);
    }
  }

  class Kernel {
    const luck: Luck
    var net: Net
    var tick: nat
    ghost var log: seq<Net>

    constructor (luck: Luck, net: Net)
      ensures this.luck == luck && Now() == View(net, 0, [])
    {
      this.luck, this.net, this.tick, this.log := luck, net, 0, [];
    }

    ghost function Now(): View
      reads this
    {
      View(net, tick, log)
    }

    /** Issues one command. */
    method Ip(s: Step) returns (ok: bool)
      requires !s.Bail?
      modifies this
      ensures ok == luck(old(tick)) && Ran(luck, old(Now()), [s], Now(), ok || s.Try?)
    {
      RanOne(luck, Now(), s);
      ok := luck(tick);
      net := if ok then Apply(net, s.cmd) else net;
      tick := tick + 1;
      log := log + [net];
    }

    /** Two commands in a row whose failures are ignored. */
    method IpTwice(a: Step, b: Step)
      requires a.Try? && b.Try?
      modifies this
      ensures Ran(luck, old(Now()), [a, b], Now(), true)
    {
      ghost var v0 := Now();
      var _ := Ip(a);
      ghost var v1 := Now();
      var _ := Ip(b);
      RanThen(luck, v0, [a], v1, [b], Now(), true);
      assert [a] + [b] == [a, b];
    }

    method ReadMasters(ifaces: seq<string>) returns (prev: map<string, string>)
      ensures prev == PrevMasters(net, ifaces)
    {
      prev := map[];
      for i := 0 to |ifaces|
        invariant prev == PrevMasters(net, ifaces[..i])
      {
        var m := MasterOf(net, ifaces[i]);
        assert ifaces[..i + 1] == ifaces[..i] + [ifaces[i]];
        if m != "" { prev := prev[ifaces[i] := m]; }
      }
      assert ifaces[..|ifaces|] == ifaces;
    }

    method CheckMembers(route: DefaultRoute, req: Request) returns (ok: bool)
      ensures ok <==> (forall x | x in req.ifaces :: x != "" && x in net.links) && Guarded(net, route, req)
    {
      for i := 0 to |req.ifaces|
        invariant forall x | x in req.ifaces[..i] :: x != "" && x in net.links && (IsPrimaryUplink(net, route, x) ==> req.target == route.dev)
      {
        var x := req.ifaces[i];
        assert x in req.ifaces;
        if x == "" || x !in net.links || (IsPrimaryUplink(net, route, x) && req.target != route.dev) { return false; }
        assert req.ifaces[..i + 1] == req.ifaces[..i] + [x];
      }
      assert req.ifaces[..|req.ifaces|] == req.ifaces;
      return true;
    }

    method ChoosePrimary(req: Request) returns (p: string)
      requires req.ifaces != []
      ensures p == ChosenPrimary(net, req)
    {
      p := req.primary;
      if p == "" && req.mode == ActiveBackup {
        for i := 0 to |req.ifaces|
          invariant p == "" && DefaultPrimary(net, req.target, req.ifaces) == DefaultPrimary(net, req.target, req.ifaces[i..])
        {
          assert req.ifaces[i..][1..] == req.ifaces[i + 1..];
          if MasterOf(net, req.ifaces[i]) == req.target {
            p := req.ifaces[i];
            if p == "" { p := req.ifaces[0]; }
            return;
          }
        }
        p := req.ifaces[0];
      }
    }

    method SortMembers(prev: map<string, string>, target: string, ifaces: seq<string>) returns (sorted: seq<string>)
      requires "" !in ifaces
      ensures sorted == Sorted(prev, target, ifaces)
    {
      sorted := [];
      var uplink := "";
      for i := 0 to |ifaces|
        invariant sorted == Secondaries(prev, target, ifaces[..i]) && uplink == Uplink(prev, target, ifaces[..i])
      {
        assert ifaces[..i + 1][..i] == ifaces[..i];
        if Lookup(prev, ifaces[i]) == target && target != "" {
          uplink := ifaces[i];
        } else {
          sorted := sorted + [ifaces[i]];
        }
      }
      assert ifaces[..|ifaces|] == ifaces;
      if uplink != "" { sorted := sorted + [uplink]; }
    }

    method EnslaveMember(x: string, bond: string) returns (ok: bool)
      modifies this
      ensures Ran(luck, old(Now()), Enslave(x, bond), Now(), ok)
    {
      ghost var v0 := Now();
      IpTwice(Try(NoMaster(x)), Try(Flush(x)));
      ghost var v1 := Now();
      var _ := Ip(Try(Down(x)));
      ghost var v2 := Now();
      ok := Ip(Must(Master(x, bond)));
      ghost var v3 := Now();
      ghost var a, b, c, d := [Try(NoMaster(x)), Try(Flush(x))], [Try(Down(x))], [Must(Master(x, bond))], [Try(Up(x))];
      assert Enslave(x, bond) == a + b + c + d;
      RanThen(luck, v0, a, v1, b, v2, true);
      RanThen(luck, v0, a + b, v2, c, v3, ok);
      if ok {
        var _ := Ip(Try(Up(x)));
        RanThen(luck, v0, a + b + c, v3, d, Now(), true);
      } else {
        RanShort(luck, v0, a + b + c, v3, d);
      }
    }

    method EnslaveMembers(sorted: seq<string>, bond: string) returns (ok: bool)
      modifies this
      ensures Ran(luck, old(Now()), EnslaveAll(sorted, bond), Now(), ok)
    {
      ghost var v0 := Now();
      RanNothing(luck, v0);
      for i := 0 to |sorted|
        invariant Ran(luck, v0, EnslaveAll(sorted[..i], bond), Now(), true)
      {
        ghost var v1 := Now();
        ok := EnslaveMember(sorted[i], bond);
        assert sorted[..i + 1][..i] == sorted[..i];
        RanThen(luck, v0, EnslaveAll(sorted[..i], bond), v1, Enslave(sorted[i], bond), Now(), ok);
        if !ok {
          FailureIsFinal(luck, v0, sorted, i + 1, bond, Now());
          return;
        }
      }
      ok := true;
      assert sorted[..|sorted|] == sorted;
    }

    method UndoMember(prev: map<string, string>, x: string)
      modifies this
      ensures Ran(luck, old(Now()), UndoOne(prev, x), Now(), true)
    {
      ghost var v0 := Now();
      var _ := Ip(Try(NoMaster(x)));
      ghost var a, b, c := [Try(NoMaster(x))], [], [Try(Up(x))];
      ghost var v1 := Now();
      RanNothing(luck, v1);
      if Lookup(prev, x) != "" {
        b := [Try(Master(x, prev[x]))];
        var _ := Ip(Try(Master(x, prev[x])));
      }
      ghost var v2 := Now();
      var _ := Ip(Try(Up(x)));
      assert UndoOne(prev, x) == a + b + c;
      RanThen(luck, v0, a, v1, b, v2, true);
      RanThen(luck, v0, a + b, v2, c, Now(), true);
    }

    method RollBack(prev: map<string, string>, req: Request)
      modifies this
      ensures Ran(luck, old(Now()), Rollback(prev, req), Now(), true)
    {
      ghost var v0 := Now();
      RanNothing(luck, v0);
      for i := 0 to |req.ifaces|
        invariant Ran(luck, v0, UndoMembers(prev, req.ifaces[..i]), Now(), true)
      {
        ghost var v1 := Now();
        UndoMember(prev, req.ifaces[i]);
        assert req.ifaces[..i + 1][..i] == req.ifaces[..i];
        RanThen(luck, v0, UndoMembers(prev, req.ifaces[..i]), v1, UndoOne(prev, req.ifaces[i]), Now(), true);
      }
      assert req.ifaces[..|req.ifaces|] == req.ifaces;
      ghost var v2 := Now();
      IpTwice(Try(Down(req.name)), Try(Del(req.name)));
      RanThen(luck, v0, UndoMembers(prev, req.ifaces), v2, [Try(Down(req.name)), Try(Del(req.name))], Now(), true);
    }

    method Raise(req: Request) returns (ok: bool)
      modifies this
      ensures Ran(luck, old(Now()), RaiseSteps(req), Now(), ok)
    {
      ghost var v0 := Now();
      ok := Ip(Must(Up(req.name)));
      ghost var v1 := Now();
      ghost var a, b := [Must(Up(req.name))], if req.target != "" then [Must(Master(req.name, req.target))] else [];
      assert RaiseSteps(req) == a + b;
      if !ok {
        RanShort(luck, v0, a, v1, b);
        return;
      }
      RanNothing(luck, v1);
      if req.target != "" {
        ok := Ip(Must(Master(req.name, req.target)));
      }
      RanThen(luck, v0, a, v1, b, Now(), ok);
    }

    method AddAddress(req: Request) returns (ok: bool)
      modifies this
      ensures Ran(luck, old(Now()), AddressSteps(req), Now(), ok)
    {
      RanNothing(luck, Now());
      ok := true;
      if req.target == "" && req.cidr.Some? {
        if !req.cidr.value { return false; }
        ok := Ip(Must(Address(req.name)));
      }
    }

    method AddGateway(req: Request) returns (ok: bool)
      modifies this
      ensures Ran(luck, old(Now()), GatewaySteps(req), Now(), ok)
    {
      RanNothing(luck, Now());
      ok := true;
      if req.target == "" && req.gateway.Some? {
        if !req.gateway.value { return false; }
        var _ := Ip(Try(Route(req.name)));
      }
    }

    method GoForward(prev: map<string, string>, req: Request) returns (ok: bool)
      requires "" !in req.ifaces
      modifies this
      ensures Ran(luck, old(Now()), Forward(prev, req), Now(), ok)
    {
      ghost var v0 := Now();
      var sorted := SortMembers(prev, req.target, req.ifaces);
      ghost var a, b, c, d := RaiseSteps(req), EnslaveAll(sorted, req.name), AddressSteps(req), GatewaySteps(req);
      ok := Raise(req);
      ghost var v1 := Now();
      if !ok {
        RanShort(luck, v0, a, v1, b);
        RanShort(luck, v0, a + b, v1, c);
        RanShort(luck, v0, a + b + c, v1, d);
        return;
      }
      ok := EnslaveMembers(sorted, req.name);
      ghost var v2 := Now();
      RanThen(luck, v0, a, v1, b, v2, ok);
      if !ok {
        RanShort(luck, v0, a + b, v2, c);
        RanShort(luck, v0, a + b + c, v2, d);
        return;
      }
      ok := AddAddress(req);
      ghost var v3 := Now();
      RanThen(luck, v0, a + b, v2, c, v3, ok);
      if !ok {
        RanShort(luck, v0, a + b + c, v3, d);
        return;
      }
      ok := AddGateway(req);
      RanThen(luck, v0, a + b + c, v3, d, Now(), ok);
    }

    /** The handler does exactly what `Create` says, command for command. */
    method CreateHostBond(route: DefaultRoute, req: Request) returns (v: Verdict)
      modifies this
      ensures Creates(luck, old(Now()), route, req, Now(), v)
    {
      if req.name == "" || req.name in net.links || |req.ifaces| < 2 { return Refused; }
      if req.target != "" && (req.target !in net.links || req.cidr.Some? || req.gateway.Some?) { return Refused; }
      var ok := CheckMembers(route, req);
      if !ok { return Refused; }
      v := CreateAccepted(route, req);
    }

    method CreateAccepted(route: DefaultRoute, req: Request) returns (v: Verdict)
      requires Accepted(net, route, req)
      modifies this
      ensures Creates(luck, old(Now()), route, req, Now(), v)
    {
      ghost var v0 := Now();
      var p := ChoosePrimary(req);
      var ok := Ip(Must(AddBond(req.name, if req.mode == ActiveBackup then p else "")));
      if !ok { return NotCreated; }
      ghost var v1 := Now();
      var prev := ReadMasters(req.ifaces);
      ok := GoForward(prev, req);
      ghost var v2 := Now();
      if !ok {
        RollBack(prev, req);
      }
      CreateByPhases(luck, v0, route, req, v1, v2, ok, Now());
      v := if ok then Created else RolledBack;
    }

    method ReturnPrimary(bridge: string, p: string)
      modifies this
      ensures Ran(luck, old(Now()), ReturnSteps(bridge, p), Now(), true)
    {
      ghost var v0 := Now();
      RanNothing(luck, v0);
      if bridge != "" && p != "" {
        IpTwice(Try(NoMaster(p)), Try(Master(p, bridge)));
        ghost var v1 := Now();
        var _ := Ip(Try(Up(p)));
        RanThen(luck, v0, [Try(NoMaster(p)), Try(Master(p, bridge))], v1, [Try(Up(p))], Now(), true);
        assert ReturnSteps(bridge, p) == [Try(NoMaster(p)), Try(Master(p, bridge))] + [Try(Up(p))];
      }
    }

    method ReleaseMembers(slaves: seq<string>, bridge: string, p: string)
      modifies this
      ensures Ran(luck, old(Now()), ReleaseSteps(slaves, bridge, p), Now(), true)
    {
      ghost var v0 := Now();
      RanNothing(luck, v0);
      for i := 0 to |slaves|
        invariant Ran(luck, v0, ReleaseSteps(slaves[..i], bridge, p), Now(), true)
      {
        ghost var v1 := Now();
        RanNothing(luck, v1);
        ghost var own := [];
        if slaves[i] != p || bridge == "" {
          own := [Try(NoMaster(slaves[i])), Try(Up(slaves[i]))];
          IpTwice(Try(NoMaster(slaves[i])), Try(Up(slaves[i])));
        }
        RanThen(luck, v0, ReleaseSteps(slaves[..i], bridge, p), v1, own, Now(), true);
        assert slaves[..i + 1][..i] == slaves[..i];
        assert ReleaseSteps(slaves[..i + 1], bridge, p) == ReleaseSteps(slaves[..i], bridge, p) + own;
      }
      assert slaves[..|slaves|] == slaves;
    }

    method RemoveBond(bond: string) returns (ok: bool)
      modifies this
      ensures Ran(luck, old(Now()), RemoveSteps(bond), Now(), ok)
    {
      ghost var v0 := Now();
      IpTwice(Try(NoMaster(bond)), Try(Down(bond)));
      ghost var v1 := Now();
      ok := Ip(Must(Del(bond)));
      RanThen(luck, v0, [Try(NoMaster(bond)), Try(Down(bond))], v1, [Must(Del(bond))], Now(), ok);
      assert RemoveSteps(bond) == [Try(NoMaster(bond)), Try(Down(bond))] + [Must(Del(bond))];
    }

    /** Deletion, given what sysfs lists as the bond's members. */
    method DeleteHostBond(bond: string, slaves: seq<string>) returns (ok: bool)
      modifies this
      ensures Ran(luck, old(Now()), DeleteSteps(old(net), bond, slaves), Now(), ok)
    {
      ghost var v0 := Now();
      var bridge := MasterOf(net, bond);
      var p := PrimaryRead(net, bond);
      if p == "" && slaves != [] { p := slaves[0]; }
      ReturnPrimary(bridge, p);
      ghost var v1 := Now();
      ReleaseMembers(slaves, bridge, p);
      ghost var v2 := Now();
      ok := RemoveBond(bond);
      RanThen(luck, v0, ReturnSteps(bridge, p), v1, ReleaseSteps(slaves, bridge, p), v2, true);
      RanThen(luck, v0, ReturnSteps(bridge, p) + ReleaseSteps(slaves, bridge, p), v2, RemoveSteps(bond), Now(), ok);
    }
  }
}
