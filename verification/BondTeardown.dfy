/** Deleting a bond, what create-then-delete gives back, and what the uplink guard overlooks. */
module BondTeardown {
  import opened HostBond
  import opened BondOrdering

  /** What sysfs shows as the primary: the configured one, while it is a member. */
  function PrimaryRead(net: Net, bond: string): string {
    if bond in net.primary && MasterOf(net, net.primary[bond]) == bond then net.primary[bond] else ""
  }

  /** `slaves` lists the members of the bond, in whatever order the kernel reports them. */
  ghost predicate Lists(net: Net, bond: string, slaves: seq<string>) {
    forall x :: x in slaves <==> MasterOf(net, x) == bond
  }

  /** The member that goes back to the bridge. */
  function Chosen(net: Net, bond: string, slaves: seq<string>): string {
    var p := PrimaryRead(net, bond);
    if p == "" && slaves != [] then slaves[0] else p
  }

  function ReturnSteps(bridge: string, p: string): seq<Step> {
    if bridge != "" && p != "" then [Try(NoMaster(p)), Try(Master(p, bridge)), Try(Up(p))] else []
  }

  function ReleaseSteps(slaves: seq<string>, bridge: string, p: string): seq<Step> {
    if slaves == [] then []
    else
      var init, last := slaves[..|slaves| - 1], slaves[|slaves| - 1];
      ReleaseSteps(init, bridge, p) + if last != p || bridge == "" then [Try(NoMaster(last)), Try(Up(last))] else []
  }

  function RemoveSteps(bond: string): seq<Step> {
    [Try(NoMaster(bond)), Try(Down(bond)), Must(Del(bond))]
  }

  function DeleteSteps(net: Net, bond: string, slaves: seq<string>): seq<Step> {
    var bridge, p := MasterOf(net, bond), Chosen(net, bond, slaves);
    ReturnSteps(bridge, p) + ReleaseSteps(slaves, bridge, p) + RemoveSteps(bond)
  }

  function Delete(luck: Luck, t: nat, net: Net, bond: string, slaves: seq<string>): Outcome {
    Steps(luck, t, net, DeleteSteps(net, bond, slaves))
  }

  // ---- what a deletion does ----

  lemma ReturnEffect(net: Net, bridge: string, p: string)
    ensures NoBail(ReturnSteps(bridge, p))
    ensures Effect(net, ReturnSteps(bridge, p)) ==
              if bridge != "" && p != "" then net.(master := net.master[p := bridge], up := net.up + {p}) else net
  {
    if bridge != "" && p != "" {
      var s := ReturnSteps(bridge, p);
      assert s[1..] == [Try(Master(p, bridge)), Try(Up(p))];
      EffectOfTwo(Apply(net, NoMaster(p)), s[1], s[2]);
      assert (net.master - {p})[p := bridge] == net.master[p := bridge];
    }
  }

  /** `x` as the release of `slaves` leaves it. */
  ghost predicate Released(net: Net, n: Net, slaves: seq<string>, bridge: string, p: string, x: string) {
    if x in slaves && (x != p || bridge == "") then x !in n.master
    else (x in n.master <==> x in net.master) && MasterOf(n, x) == MasterOf(net, x)
  }

  ghost predicate AllReleased(net: Net, n: Net, slaves: seq<string>, bridge: string, p: string) {
    forall x :: Released(net, n, slaves, bridge, p, x)
  }

  lemma {:induction false} ReleaseEffect(net: Net, slaves: seq<string>, bridge: string, p: string)
    ensures NoBail(ReleaseSteps(slaves, bridge, p))
    ensures var n := Effect(net, ReleaseSteps(slaves, bridge, p));
            n.links == net.links && n.primary == net.primary && AllReleased(net, n, slaves, bridge, p)
  {
    if slaves != [] {
      var init, last := slaves[..|slaves| - 1], slaves[|slaves| - 1];
      ReleaseEffect(net, init, bridge, p);
      var n := Effect(net, ReleaseSteps(init, bridge, p));
      assert slaves == init + [last];
      if last != p || bridge == "" {
        EffectOfTwo(n, Try(NoMaster(last)), Try(Up(last)));
        EffectConcat(net, ReleaseSteps(init, bridge, p), [Try(NoMaster(last)), Try(Up(last))]);
      } else {
        assert ReleaseSteps(slaves, bridge, p) == ReleaseSteps(init, bridge, p);
      }
      var n' := Effect(net, ReleaseSteps(slaves, bridge, p));
      forall x ensures Released(net, n', slaves, bridge, p, x) {
        assert Released(net, n, init, bridge, p, x);
      }
    }
  }

  lemma RemoveEffect(net: Net, bond: string)
    ensures NoBail(RemoveSteps(bond))
    ensures Effect(net, RemoveSteps(bond)) == Apply(net.(master := net.master - {bond}, up := net.up - {bond}), Del(bond))
  {
    var s := RemoveSteps(bond);
    assert s[1..] == [Try(Down(bond)), Must(Del(bond))];
    EffectOfTwo(Apply(net, NoMaster(bond)), s[1], s[2]);
  }

  /** A deletion in which every command works: the bond and its memberships are gone, the chosen member
      is on the bond's bridge, and everything else has the master it had. */
  ghost predicate TornDown(net: Net, n: Net, bond: string, p: string) {
    var bridge := MasterOf(net, bond);
    && n.links == net.links - {bond} && n.primary == net.primary - {bond}
    && (forall x :: MasterOf(n, x) ==
          if x == bond then ""
          else if MasterOf(net, x) == bond then (if x == p then bridge else "")
          else MasterOf(net, x))
  }

  lemma DeleteEffect(luck: Luck, t: nat, net: Net, bond: string, slaves: seq<string>)
    requires Lists(net, bond, slaves) && bond != "" && "" !in slaves && MasterOf(net, bond) != bond
    requires forall k :: luck(k)
    ensures Delete(luck, t, net, bond, slaves).ok
    ensures TornDown(net, Delete(luck, t, net, bond, slaves).net, bond, Chosen(net, bond, slaves))
  {
    var bridge, p := MasterOf(net, bond), Chosen(net, bond, slaves);
    var a, b, c := ReturnSteps(bridge, p), ReleaseSteps(slaves, bridge, p), RemoveSteps(bond);
    ReturnEffect(net, bridge, p);
    var n1 := Effect(net, a);
    ReleaseEffect(n1, slaves, bridge, p);
    var n2 := Effect(n1, b);
    RemoveEffect(n2, bond);
    EffectConcat(net, a, b);
    EffectConcat(net, a + b, c);
    LuckySteps(luck, t, net, a + b + c);
    TornDownBySteps(net, n1, n2, bond, slaves, p);
  }

  lemma TornDownBySteps(net: Net, n1: Net, n2: Net, bond: string, slaves: seq<string>, p: string)
    requires Lists(net, bond, slaves) && bond != "" && "" !in slaves && MasterOf(net, bond) != bond
    requires p == Chosen(net, bond, slaves)
    requires var bridge := MasterOf(net, bond);
             n1 == if bridge != "" && p != "" then net.(master := net.master[p := bridge], up := net.up + {p}) else net
    requires n2.links == n1.links && n2.primary == n1.primary && AllReleased(n1, n2, slaves, MasterOf(net, bond), p)
    ensures TornDown(net, Apply(n2.(master := n2.master - {bond}, up := n2.up - {bond}), Del(bond)), bond, p)
  {
    var bridge := MasterOf(net, bond);
    var n := Apply(n2.(master := n2.master - {bond}, up := n2.up - {bond}), Del(bond));
    assert p != "" ==> MasterOf(net, p) == bond;
    forall x ensures MasterOf(n, x) ==
          if x == bond then ""
          else if MasterOf(net, x) == bond then (if x == p then bridge else "")
          else MasterOf(net, x)
    {
      assert Released(n1, n2, slaves, bridge, p, x);
      assert x in slaves <==> MasterOf(net, x) == bond;
    }
  }

  // ---- create, then delete ----

  predicate AddressesValid(req: Request) {
    (req.cidr.Some? ==> req.cidr.value) && (req.gateway.Some? ==> req.gateway.value)
  }

  lemma AddressEffect(net: Net, req: Request)
    requires AddressesValid(req)
    ensures NoBail(AddressSteps(req)) && Effect(net, AddressSteps(req)) == net
    ensures NoBail(GatewaySteps(req)) && Effect(net, GatewaySteps(req)) == net
  {
    if AddressSteps(req) != [] { assert AddressSteps(req)[1..] == []; }
    if GatewaySteps(req) != [] { assert GatewaySteps(req)[1..] == []; }
  }

  lemma ForwardResult(net: Net, prim: string, req: Request)
    requires AddressesValid(req)
    ensures NoBail(Forward(PrevMasters(net, req.ifaces), req)) && NoBail(EnslaveAll(Order(net, req), req.name))
    ensures Effect(Apply(net, AddBond(req.name, prim)), Forward(PrevMasters(net, req.ifaces), req))
            == Effect(Raised(net, prim, req), EnslaveAll(Order(net, req), req.name))
  {
    var n1 := Apply(net, AddBond(req.name, prim));
    var all := EnslaveAll(Order(net, req), req.name);
    var n2 := Raised(net, prim, req);
    RaiseEffect(n1, req);
    EnslaveAllEffect(n2, Order(net, req), req.name);
    EffectConcat(n1, RaiseSteps(req), all);
    AddressEffect(Effect(n2, all), req);
    EffectConcat(n1, RaiseSteps(req) + all, AddressSteps(req));
    EffectConcat(n1, RaiseSteps(req) + all + AddressSteps(req), GatewaySteps(req));
  }

  /** What a creation in which every command works leaves. */
  lemma CreatedNet(luck: Luck, t: nat, net: Net, route: DefaultRoute, req: Request)
    requires Accepted(net, route, req) && AddressesValid(req) && forall k :: luck(k)
    ensures var r := Create(luck, t, net, route, req);
            var n2 := Raised(net, PrimaryArg(net, req), req);
            && r.verdict == Created && r.out.net.links == n2.links && r.out.net.primary == n2.primary
            && AllJoined(n2, r.out.net, Order(net, req), req.name)
  {
    AddedThen(luck, t, net, route, req);
    ForwardResult(net, PrimaryArg(net, req), req);
    EnslaveAllEffect(Raised(net, PrimaryArg(net, req), req), Order(net, req), req.name);
    LuckySteps(luck, t + 1, Apply(net, AddBond(req.name, PrimaryArg(net, req))), Forward(PrevMasters(net, req.ifaces), req));
  }

  /** The master of `x` once the bond has been made. */
  function MadeMaster(net: Net, req: Request, x: string): string {
    if x == req.name then req.target else if x in Order(net, req) then req.name else MasterOf(net, x)
  }

  ghost predicate Made(net: Net, made: Net, req: Request) {
    forall x :: MasterOf(made, x) == MadeMaster(net, req, x)
  }

  lemma CreatedMasters(net: Net, n: Net, req: Request, x: string)
    requires WellFormed(net) && req.name !in net.links && req.name != "" && forall i | i in req.ifaces :: i in net.links
    requires req.ifaces != [] && AllJoined(Raised(net, PrimaryArg(net, req), req), n, Order(net, req), req.name)
    ensures MasterOf(n, x) == MadeMaster(net, req, x)
    ensures x in Order(net, req) ==> x in req.ifaces && x != req.name && x != ""
  {
    assert Joined(Raised(net, PrimaryArg(net, req), req), n, Order(net, req), req.name, x);
    SortedMembers(PrevMasters(net, req.ifaces), req.target, req.ifaces);
    if x in Order(net, req) {
      assert x in req.ifaces;
    }
  }

  lemma CreatedAsMade(luck: Luck, t: nat, net: Net, route: DefaultRoute, req: Request)
    requires WellFormed(net) && Accepted(net, route, req) && AddressesValid(req) && forall k :: luck(k)
    ensures Made(net, Create(luck, t, net, route, req).out.net, req)
    ensures forall x | x in Order(net, req) :: x in req.ifaces && x != req.name && x != ""
  {
    CreatedNet(luck, t, net, route, req);
    forall x ensures MasterOf(Create(luck, t, net, route, req).out.net, x) == MadeMaster(net, req, x)
      ensures x in Order(net, req) ==> x in req.ifaces && x != req.name && x != ""
    {
      CreatedMasters(net, Create(luck, t, net, route, req).out.net, req, x);
    }
  }

  /** The member chosen at deletion was the one on the bridge, and all the others had no master; a
      standalone bond asks for members without a master. */
  ghost predicate Reversible(net: Net, req: Request, p: string) {
    if req.target == "" then forall x | x in req.ifaces :: MasterOf(net, x) == ""
    else p == Uplink(PrevMasters(net, req.ifaces), req.target, req.ifaces)
         && forall x | x in req.ifaces && MasterOf(net, x) != req.target :: MasterOf(net, x) == ""
  }

  /** The masters that come back, member by member. */
  ghost predicate ComesBack(net: Net, req: Request, p: string) {
    forall x | x in Order(net, req) :: MasterOf(net, x) == if x == p then req.target else ""
  }

  lemma ComesBackIff(net: Net, req: Request, p: string)
    requires "" !in req.ifaces && req.ifaces != [] && p in Order(net, req)
    ensures ComesBack(net, req, p) <==> Reversible(net, req, p)
  {
    var prev := PrevMasters(net, req.ifaces);
    SortedMembers(prev, req.target, req.ifaces);
    if req.target != "" && ComesBack(net, req, p) {
      OrderEndsIn(net, req, p);
      assert forall x | x in req.ifaces && MasterOf(net, x) != req.target :: x in Order(net, req);
    }
    if req.target != "" && Reversible(net, req, p) {
      forall x | x in Order(net, req) ensures MasterOf(net, x) == if x == p then req.target else "" {
        assert x == p || x in Secondaries(prev, req.target, req.ifaces);
      }
    }
  }

  lemma SameMastersIff(net: Net, made: Net, gone: Net, req: Request, p: string)
    requires WellFormed(net) && req.name !in net.links && req.name != "" && req.target != req.name
    requires Made(net, made, req)
    requires req.name !in Order(net, req) && TornDown(made, gone, req.name, p)
    ensures (forall x :: MasterOf(gone, x) == MasterOf(net, x)) <==> ComesBack(net, req, p)
  {
    forall x ensures MasterOf(net, x) != req.name && MasterOf(net, req.name) == "" {
      assert x in net.master ==> net.master[x] in net.links;
    }
    forall x ensures MasterOf(gone, x) ==
        if x in Order(net, req) then (if x == p then req.target else "") else MasterOf(net, x)
    {
      assert MasterOf(made, x) == req.name <==> x in Order(net, req);
    }
  }

  lemma ChosenIsMember(net: Net, made: Net, req: Request, slaves: seq<string>)
    requires WellFormed(net) && req.name != "" && req.name !in net.links && req.ifaces != [] && req.target != req.name
    requires forall x | x in req.ifaces :: x in net.links
    requires Made(net, made, req)
    requires Lists(made, req.name, slaves)
    ensures Chosen(made, req.name, slaves) in Order(net, req)
  {
    var prev := PrevMasters(net, req.ifaces);
    SortedMembers(prev, req.target, req.ifaces);
    var x := req.ifaces[0];
    if AttachedTo(prev, req.target, x) { AttachedHasUplink(prev, req.target, req.ifaces, x); }
    var m := Order(net, req)[0];
    assert m in Order(net, req) && m in req.ifaces;
    assert MasterOf(made, m) == req.name && m in slaves;
    var p := Chosen(made, req.name, slaves);
    assert MasterOf(made, p) == req.name;
    assert p in net.master ==> net.master[p] in net.links;
  }

  /** Main result on teardown: creating a bond and deleting it again, with every command working, gives
      back the master of every link exactly when the request was reversible. */
  lemma CreateThenDelete(luck: Luck, t: nat, net: Net, route: DefaultRoute, req: Request, t': nat, slaves: seq<string>)
    requires WellFormed(net) && Accepted(net, route, req) && AddressesValid(req) && forall k :: luck(k)
    requires Lists(Create(luck, t, net, route, req).out.net, req.name, slaves)
    ensures var made := Create(luck, t, net, route, req).out.net;
            var gone := Delete(luck, t', made, req.name, slaves);
            && gone.ok && gone.net.links == net.links && gone.net.primary == net.primary
            && ((forall x :: MasterOf(gone.net, x) == MasterOf(net, x)) <==> Reversible(net, req, Chosen(made, req.name, slaves)))
  {
    var made := Create(luck, t, net, route, req).out.net;
    CreatedAsMade(luck, t, net, route, req);
    CreatedNet(luck, t, net, route, req);
    DeletedAgain(luck, net, made, req, t', slaves);
    LinksAreBack(net, made, Delete(luck, t', made, req.name, slaves).net, PrimaryArg(net, req), req, Chosen(made, req.name, slaves));
  }

  lemma LinksAreBack(net: Net, made: Net, gone: Net, prim: string, req: Request, p: string)
    requires WellFormed(net) && req.name !in net.links && TornDown(made, gone, req.name, p)
    requires made.links == Raised(net, prim, req).links && made.primary == Raised(net, prim, req).primary
    ensures gone.links == net.links && gone.primary == net.primary
  {
    assert req.name !in net.primary;
  }

  lemma DeletedAgain(luck: Luck, net: Net, made: Net, req: Request, t: nat, slaves: seq<string>)
    requires WellFormed(net) && req.name !in net.links && req.name != "" && req.ifaces != [] && req.target != req.name
    requires (forall x | x in req.ifaces :: x in net.links) && "" !in req.ifaces && forall k :: luck(k)
    requires Made(net, made, req) && Lists(made, req.name, slaves) && req.name !in Order(net, req) && "" !in Order(net, req)
    ensures Delete(luck, t, made, req.name, slaves).ok
    ensures TornDown(made, Delete(luck, t, made, req.name, slaves).net, req.name, Chosen(made, req.name, slaves))
    ensures (forall x :: MasterOf(Delete(luck, t, made, req.name, slaves).net, x) == MasterOf(net, x))
            <==> Reversible(net, req, Chosen(made, req.name, slaves))
  {
    var p := Chosen(made, req.name, slaves);
    assert MasterOf(made, req.name) == MadeMaster(net, req, req.name);
    NoNamelessSlave(net, made, req, slaves);
    DeleteEffect(luck, t, made, req.name, slaves);
    ChosenIsMember(net, made, req, slaves);
    ComesBackIff(net, req, p);
    SameMastersIff(net, made, Delete(luck, t, made, req.name, slaves).net, req, p);
  }

  lemma NoNamelessSlave(net: Net, made: Net, req: Request, slaves: seq<string>)
    requires WellFormed(net) && req.name !in net.links && req.name != ""
    requires Made(net, made, req) && Lists(made, req.name, slaves) && "" !in Order(net, req)
    ensures "" !in slaves
  {
    assert MasterOf(made, "") == MadeMaster(net, req, "");
    assert "" in net.master ==> "" in net.links;
  }

  lemma {:induction false} DefaultIsUplink(net: Net, target: string, ifaces: seq<string>, u: string)
    requires target != "" && u != "" && u in ifaces && forall x | x in ifaces :: MasterOf(net, x) == target <==> x == u
    ensures DefaultPrimary(net, target, ifaces) == u
  {
    if ifaces[0] != u { DefaultIsUplink(net, target, ifaces[1..], u); }
  }

  /** With active-backup, the default primary and one attached member, that member is the one chosen:
      only masters of the other members can stand in the way of reversal. */
  lemma ActiveBackupReverses(luck: Luck, t: nat, net: Net, route: DefaultRoute, req: Request, u: string, slaves: seq<string>)
    requires WellFormed(net) && Accepted(net, route, req) && AddressesValid(req) && forall k :: luck(k)
    requires req.mode == ActiveBackup && req.primary == "" && req.target != "" && u in req.ifaces
    requires forall x | x in req.ifaces :: MasterOf(net, x) == req.target <==> x == u
    ensures var made := Create(luck, t, net, route, req).out.net;
            Reversible(net, req, Chosen(made, req.name, slaves)) <==> forall x | x in req.ifaces && x != u :: MasterOf(net, x) == ""
  {
    var made := Create(luck, t, net, route, req).out.net;
    var prev := PrevMasters(net, req.ifaces);
    CreatedNet(luck, t, net, route, req);
    DefaultIsUplink(net, req.target, req.ifaces, u);
    SortedMembers(prev, req.target, req.ifaces);
    AttachedHasUplink(prev, req.target, req.ifaces, u);
    assert Uplink(prev, req.target, req.ifaces) == u;
    CreatedMasters(net, made, req, u);
    assert made.primary[req.name] == u;
  }

  /** In every other mode the kernel has no primary and lists the members as they joined, so the
      first secondary is put on the bridge and the old uplink is not. */
  lemma OtherModesDoNotReverse(luck: Luck, t: nat, net: Net, route: DefaultRoute, req: Request, slaves: seq<string>)
    requires WellFormed(net) && Accepted(net, route, req) && AddressesValid(req) && forall k :: luck(k)
    requires req.mode == OtherMode && req.target != "" && Secondaries(PrevMasters(net, req.ifaces), req.target, req.ifaces) != []
    requires slaves != [] && slaves[0] == Order(net, req)[0]
    ensures !Reversible(net, req, Chosen(Create(luck, t, net, route, req).out.net, req.name, slaves))
  {
    CreatedNet(luck, t, net, route, req);
    assert req.name !in net.primary;
    var prev := PrevMasters(net, req.ifaces);
    SortedMembers(prev, req.target, req.ifaces);
    assert slaves[0] in Secondaries(prev, req.target, req.ifaces);
  }

  // ---- the guard against cutting off the host ----

  /** The default-route bridge still has a physical port, directly or through the bond. */
  ghost predicate HasPort(n: Net, route: DefaultRoute, bond: string) {
    exists p :: p in route.phys && (MasterOf(n, p) == route.dev || (MasterOf(n, p) == bond && MasterOf(n, bond) == route.dev))
  }

  ghost predicate PortLeft(net: Net, route: DefaultRoute, req: Request) {
    exists p :: p in Ports(net, route) && p !in req.ifaces
  }

  /** A bond on the bridge is a port of it through its first member. */
  lemma PortThroughBond(net: Net, made: Net, route: DefaultRoute, req: Request)
    requires Made(net, made, req) && req.ifaces != [] && "" !in req.ifaces && req.target == route.dev
    requires req.name !in Order(net, req) && forall x | x in req.ifaces :: x in route.phys
    ensures HasPort(made, route, req.name)
  {
    var prev := PrevMasters(net, req.ifaces);
    SortedMembers(prev, req.target, req.ifaces);
    if AttachedTo(prev, req.target, req.ifaces[0]) { AttachedHasUplink(prev, req.target, req.ifaces, req.ifaces[0]); }
    var m := Order(net, req)[0];
    assert m in Order(net, req) && m in route.phys;
    assert MasterOf(made, m) == MadeMaster(net, req, m) && MasterOf(made, req.name) == MadeMaster(net, req, req.name);
  }

  /** A bond elsewhere leaves the bridge the ports that were not requested. */
  lemma PortsOfOthers(net: Net, made: Net, route: DefaultRoute, req: Request)
    requires WellFormed(net) && Made(net, made, req) && "" !in req.ifaces && req.target != route.dev && route.dev in net.links
    requires req.name !in net.links && req.name !in route.phys && (forall x | x in Order(net, req) :: x in req.ifaces)
    ensures HasPort(made, route, req.name) <==> PortLeft(net, route, req)
  {
    SortedMembers(PrevMasters(net, req.ifaces), req.target, req.ifaces);
    assert MasterOf(made, req.name) == MadeMaster(net, req, req.name);
    forall p | p in route.phys ensures MasterOf(made, p) == route.dev <==> p in Ports(net, route) && p !in req.ifaces {
      assert MasterOf(made, p) == MadeMaster(net, req, p);
      assert p in req.ifaces && MasterOf(net, p) == route.dev ==> !AttachedTo(PrevMasters(net, req.ifaces), req.target, p);
    }
  }

  /** After a creation the default-route bridge has a port exactly when it was the target or a port of
      it was not requested. */
  lemma PortsAfterCreate(luck: Luck, t: nat, net: Net, route: DefaultRoute, req: Request)
    requires WellFormed(net) && Accepted(net, route, req) && AddressesValid(req) && forall k :: luck(k)
    requires route.dev in net.links && req.name !in route.phys && forall x | x in req.ifaces :: x in route.phys
    ensures HasPort(Create(luck, t, net, route, req).out.net, route, req.name)
            <==> req.target == route.dev || PortLeft(net, route, req)
  {
    var made := Create(luck, t, net, route, req).out.net;
    CreatedAsMade(luck, t, net, route, req);
    if req.target == route.dev {
      PortThroughBond(net, made, route, req);
    } else {
      PortsOfOthers(net, made, route, req);
    }
  }

  /** The guard looks at members one by one, so it stops a request for all the ports of the
      default-route bridge exactly when there is a single one. */
  lemma GuardOverlooks(net: Net, route: DefaultRoute, req: Request)
    requires route.isBridge && route.dev != "" && route.dev !in req.ifaces && req.target != route.dev
    requires req.ifaces != [] && Members(req.ifaces) == Ports(net, route)
    ensures Guarded(net, route, req) <==> |Ports(net, route)| >= 2
  {
    assert req.ifaces[0] in Members(req.ifaces);
    forall x | x in req.ifaces ensures IsPrimaryUplink(net, route, x) <==> |Ports(net, route)| <= 1 {
      assert x in Members(req.ifaces);
    }
  }
}
