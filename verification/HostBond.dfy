/** Creating and deleting a Linux bond, `ip` command by `ip` command (`CreateHostBond` and
  `DeleteHostBond`, without the netplan branch).

  Whether the command issued at tick `t` succeeds is `luck(t)`; a command that fails changes nothing.
  `up` holds the links that are up with a carrier, so bringing a link up fails when it gets none.
*/
module HostBond {
  import opened Wrappers

  /** `primary` is the primary a bond was created with; "" never names a link. */
  datatype Net = Net(links: set<string>, master: map<string, string>, up: set<string>, primary: map<string, string>)

  datatype Cmd =
    | AddBond(bond: string, prim: string)
    | Del(link: string)
    | Master(link: string, to: string)
    | NoMaster(link: string)
    | Up(link: string)
    | Down(link: string)
    | Flush(link: string)
    | Address(link: string)
    | Route(link: string)

  /** `Try` ignores a failure, `Must` gives up on one, and `Bail` gives up without a command. */
  datatype Step = Try(cmd: Cmd) | Must(cmd: Cmd) | Bail

  /** `log` holds the network after each command. */
  datatype Outcome = Outcome(net: Net, t: nat, ok: bool, log: seq<Net>)

  type Luck = nat -> bool

  function Apply(net: Net, c: Cmd): Net {
    match c
    case AddBond(b, p) =>
      net.(links := net.links + {b}, primary := if p == "" then net.primary else net.primary[b := p])
    case Del(b) =>
      Net(net.links - {b}, map x | x in net.master && x != b && net.master[x] != b :: net.master[x],
          net.up - {b}, net.primary - {b})
    case Master(x, m) => net.(master := net.master[x := m])
    case NoMaster(x) => net.(master := net.master - {x})
    case Up(x) => net.(up := net.up + {x})
    case Down(x) => net.(up := net.up - {x})
    case Flush(_) => net
    case Address(_) => net
    case Route(_) => net
  }

  function Attempt(luck: Luck, t: nat, net: Net, c: Cmd): Net {
    if luck(t) then Apply(net, c) else net
  }

  function Steps(luck: Luck, t: nat, net: Net, steps: seq<Step>): Outcome
    decreases |steps|
  {
    if steps == [] then Outcome(net, t, true, [])
    else if steps[0].Bail? then Outcome(net, t, false, [])
    else
      var next := Attempt(luck, t, net, steps[0].cmd);
      if steps[0].Must? && !luck(t) then Outcome(next, t + 1, false, [next])
      else
        var rest := Steps(luck, t + 1, next, steps[1..]);
        rest.(log := [next] + rest.log)
  }

  lemma {:induction false} StepsConcat(luck: Luck, t: nat, net: Net, a: seq<Step>, b: seq<Step>)
    ensures var first := Steps(luck, t, net, a);
            Steps(luck, t, net, a + b) ==
              if !first.ok then first
              else var second := Steps(luck, first.t, first.net, b); second.(log := first.log + second.log)
    decreases |a|
  {
    if a == [] {
      assert a + b == b;
      var second := Steps(luck, t, net, b);
      assert [] + second.log == second.log;
    } else if !a[0].Bail? && !(a[0].Must? && !luck(t)) {
      assert (a + b)[1..] == a[1..] + b;
      var next := Attempt(luck, t, net, a[0].cmd);
      StepsConcat(luck, t + 1, next, a[1..], b);
      var rest := Steps(luck, t + 1, next, a[1..]);
      if rest.ok {
        var second := Steps(luck, rest.t, rest.net, b);
        assert [next] + (rest.log + second.log) == [next] + rest.log + second.log;
      }
    }
  }

  // ---- the request ----

  datatype Mode = ActiveBackup | OtherMode

  /** `cidr` and `gateway` are absent when empty, and otherwise say whether they parse. */
  datatype Request = Request(name: string, ifaces: seq<string>, mode: Mode, primary: string, target: string,
                             cidr: Option<bool>, gateway: Option<bool>)

  function MasterOf(net: Net, x: string): string {
    if x in net.master then net.master[x] else ""
  }

  function PrevMasters(net: Net, ifaces: seq<string>): map<string, string> {
    map x | x in ifaces && MasterOf(net, x) != "" :: MasterOf(net, x)
  }

  function Lookup(m: map<string, string>, x: string): string {
    if x in m then m[x] else ""
  }

  predicate AttachedTo(prev: map<string, string>, target: string, x: string) {
    target != "" && Lookup(prev, x) == target
  }

  function Secondaries(prev: map<string, string>, target: string, ifaces: seq<string>): seq<string> {
    if ifaces == [] then []
    else
      var init, last := ifaces[..|ifaces| - 1], ifaces[|ifaces| - 1];
      if AttachedTo(prev, target, last) then Secondaries(prev, target, init) else Secondaries(prev, target, init) + [last]
  }

  /** The attached member seen last, "" when there is none. */
  function Uplink(prev: map<string, string>, target: string, ifaces: seq<string>): string {
    if ifaces == [] then ""
    else
      var last := ifaces[|ifaces| - 1];
      if AttachedTo(prev, target, last) then last else Uplink(prev, target, ifaces[..|ifaces| - 1])
  }

  /** The order of enslavement. */
  function Sorted(prev: map<string, string>, target: string, ifaces: seq<string>): seq<string> {
    var up := Uplink(prev, target, ifaces);
    Secondaries(prev, target, ifaces) + if up == "" then [] else [up]
  }

  function DefaultPrimary(net: Net, target: string, ifaces: seq<string>): string {
    if ifaces == [] then ""
    else if MasterOf(net, ifaces[0]) == target then ifaces[0]
    else DefaultPrimary(net, target, ifaces[1..])
  }

  function ChosenPrimary(net: Net, req: Request): string
    requires req.ifaces != []
  {
    if req.mode != ActiveBackup || req.primary != "" then req.primary
    else
      var p := DefaultPrimary(net, req.target, req.ifaces);
      if p == "" then req.ifaces[0] else p
  }

  /** Only active-backup passes the primary on. */
  function PrimaryArg(net: Net, req: Request): string
    requires req.ifaces != []
  {
    if req.mode == ActiveBackup then ChosenPrimary(net, req) else ""
  }

  // ---- the program ----

  function Enslave(x: string, bond: string): seq<Step> {
    [Try(NoMaster(x)), Try(Flush(x)), Try(Down(x)), Must(Master(x, bond)), Try(Up(x))]
  }

  function EnslaveAll(sorted: seq<string>, bond: string): seq<Step> {
    if sorted == [] then [] else EnslaveAll(sorted[..|sorted| - 1], bond) + Enslave(sorted[|sorted| - 1], bond)
  }

  function RaiseSteps(req: Request): seq<Step> {
    [Must(Up(req.name))] + if req.target != "" then [Must(Master(req.name, req.target))] else []
  }

  function AddressSteps(req: Request): seq<Step> {
    if req.target != "" || req.cidr.None? then []
    else if req.cidr.value then [Must(Address(req.name))] else [Bail]
  }

  function GatewaySteps(req: Request): seq<Step> {
    if req.target != "" || req.gateway.None? then []
    else if req.gateway.value then [Try(Route(req.name))] else [Bail]
  }

  function Forward(prev: map<string, string>, req: Request): seq<Step> {
    RaiseSteps(req) + EnslaveAll(Sorted(prev, req.target, req.ifaces), req.name) + AddressSteps(req) + GatewaySteps(req)
  }

  function UndoOne(prev: map<string, string>, x: string): seq<Step> {
    [Try(NoMaster(x))] + (if Lookup(prev, x) != "" then [Try(Master(x, prev[x]))] else []) + [Try(Up(x))]
  }

  function UndoMembers(prev: map<string, string>, ifaces: seq<string>): seq<Step> {
    if ifaces == [] then []
    else UndoMembers(prev, ifaces[..|ifaces| - 1]) + UndoOne(prev, ifaces[|ifaces| - 1])
  }

  function Rollback(prev: map<string, string>, req: Request): seq<Step> {
    UndoMembers(prev, req.ifaces) + [Try(Down(req.name)), Try(Del(req.name))]
  }

  datatype Verdict = Refused | NotCreated | RolledBack | Created

  datatype Result = Result(verdict: Verdict, out: Outcome)

  // ---- the guard ----

  /** What the guard looks at: the device of the default route ("" if none) and the physical links. */
  datatype DefaultRoute = DefaultRoute(dev: string, isBridge: bool, phys: set<string>)

  function Ports(net: Net, route: DefaultRoute): set<string> {
    set x | x in route.phys && MasterOf(net, x) == route.dev
  }

  predicate IsPrimaryUplink(net: Net, route: DefaultRoute, x: string) {
    && route.dev != ""
    && (|| route.dev == x
        || (if route.isBridge && x in Ports(net, route) then |Ports(net, route)| <= 1
            else
              var m := MasterOf(net, x);
              m != "" && (m == route.dev || MasterOf(net, m) == route.dev)))
  }

  predicate Guarded(net: Net, route: DefaultRoute, req: Request) {
    forall x | x in req.ifaces :: IsPrimaryUplink(net, route, x) ==> req.target == route.dev
  }

  predicate Accepted(net: Net, route: DefaultRoute, req: Request) {
    && req.name != "" && req.name !in net.links
    && |req.ifaces| >= 2
    && (req.target == "" || (req.target in net.links && req.cidr.None? && req.gateway.None?))
    && (forall x | x in req.ifaces :: x != "" && x in net.links)
    && Guarded(net, route, req)
  }

  /** The whole of bond creation. */
  function Create(luck: Luck, t: nat, net: Net, route: DefaultRoute, req: Request): Result {
    if !Accepted(net, route, req) then Result(Refused, Outcome(net, t, true, []))
    else
      var added := Steps(luck, t, net, [Must(AddBond(req.name, PrimaryArg(net, req)))]);
      if !added.ok then Result(NotCreated, added)
      else
        var prev := PrevMasters(added.net, req.ifaces);
        var fwd := Steps(luck, added.t, added.net, Forward(prev, req));
        if fwd.ok then Result(Created, fwd.(log := added.log + fwd.log))
        else
          var undone := Steps(luck, fwd.t, fwd.net, Rollback(prev, req));
          Result(RolledBack, undone.(log := added.log + fwd.log + undone.log))
  }

  // ---- rollback ----

  function Members(ifaces: seq<string>): set<string> {
    set x | x in ifaces
  }

  /** Names are real: no link is called "", and masters, members and up links exist. */
  ghost predicate WellFormed(net: Net) {
    && "" !in net.links
    && (forall x | x in net.master :: x in net.links && net.master[x] in net.links)
    && net.up <= net.links && net.primary.Keys <= net.links
  }

  /** Outside `members` and the bond itself nothing has changed since `net0`, and only members are in the bond. */
  ghost predicate OnlyMembersTouched(net0: Net, net: Net, members: seq<string>, bond: string) {
    && net.links == net0.links + {bond}
    && net.primary - {bond} == net0.primary
    && (forall x | x !in members && x != bond :: MasterOf(net, x) == MasterOf(net0, x) && (x in net.up <==> x in net0.up))
    && (forall x | x in net.master && x != bond :: net.master[x] != "" && (x in members || x in net0.master))
  }

  /** A forward or undo step of this bond. */
  ghost predicate StepOf(s: Step, members: seq<string>, bond: string) {
    s.Bail? || (match s.cmd
                case Master(x, m) => m != "" && (x in members || x == bond)
                case NoMaster(x) => x in members
                case Up(x) => x in members || x == bond
                case Down(x) => x in members || x == bond
                case Flush(_) => true
                case Address(_) => true
                case Route(_) => true
                case AddBond(_, _) => false
                case Del(_) => false)
  }

  lemma {:induction false} StepsTouchMembers(luck: Luck, t: nat, net0: Net, net: Net, steps: seq<Step>, members: seq<string>, bond: string)
    requires OnlyMembersTouched(net0, net, members, bond) && forall s | s in steps :: StepOf(s, members, bond)
    ensures OnlyMembersTouched(net0, Steps(luck, t, net, steps).net, members, bond)
    decreases |steps|
  {
    if steps != [] && !steps[0].Bail? {
      var next := Attempt(luck, t, net, steps[0].cmd);
      assert StepOf(steps[0], members, bond);
      assert OnlyMembersTouched(net0, next, members, bond);
      assert forall s | s in steps[1..] :: s in steps;
      StepsTouchMembers(luck, t + 1, net0, next, steps[1..], members, bond);
    }
  }

  lemma {:induction false} EnslaveAllSteps(sorted: seq<string>, members: seq<string>, bond: string)
    requires bond != "" && forall x | x in sorted :: x in members
    ensures forall s | s in EnslaveAll(sorted, bond) :: StepOf(s, members, bond)
  {
    if sorted != [] {
      EnslaveAllSteps(sorted[..|sorted| - 1], members, bond);
      assert sorted[|sorted| - 1] in sorted;
      assert forall s | s in Enslave(sorted[|sorted| - 1], bond) :: StepOf(s, members, bond);
    }
  }

  lemma {:induction false} SortedMembers(prev: map<string, string>, target: string, ifaces: seq<string>)
    ensures forall x | x in Secondaries(prev, target, ifaces) :: x in ifaces && !AttachedTo(prev, target, x)
    ensures forall x | x in ifaces && !AttachedTo(prev, target, x) :: x in Secondaries(prev, target, ifaces)
    ensures Uplink(prev, target, ifaces) != "" ==> Uplink(prev, target, ifaces) in ifaces && AttachedTo(prev, target, Uplink(prev, target, ifaces))
  {
    if ifaces != [] {
      SortedMembers(prev, target, ifaces[..|ifaces| - 1]);
      assert ifaces == ifaces[..|ifaces| - 1] + [ifaces[|ifaces| - 1]];
    }
  }

  ghost predicate AllStepsOf(steps: seq<Step>, members: seq<string>, bond: string) {
    forall s | s in steps :: StepOf(s, members, bond)
  }

  lemma StepsOfBoth(a: seq<Step>, b: seq<Step>, members: seq<string>, bond: string)
    requires AllStepsOf(a, members, bond) && AllStepsOf(b, members, bond)
    ensures AllStepsOf(a + b, members, bond)
  {
  }

  lemma RaiseStepsOf(req: Request)
    ensures AllStepsOf(RaiseSteps(req), req.ifaces, req.name)
    ensures AllStepsOf(AddressSteps(req), req.ifaces, req.name) && AllStepsOf(GatewaySteps(req), req.ifaces, req.name)
  {
  }

  lemma ForwardSteps(prev: map<string, string>, req: Request)
    requires req.name != ""
    ensures forall s | s in Forward(prev, req) :: StepOf(s, req.ifaces, req.name)
  {
    var a, b := RaiseSteps(req), EnslaveAll(Sorted(prev, req.target, req.ifaces), req.name);
    SortedMembers(prev, req.target, req.ifaces);
    EnslaveAllSteps(Sorted(prev, req.target, req.ifaces), req.ifaces, req.name);
    RaiseStepsOf(req);
    StepsOfBoth(a, b, req.ifaces, req.name);
    StepsOfBoth(a + b, AddressSteps(req), req.ifaces, req.name);
    StepsOfBoth(a + b + AddressSteps(req), GatewaySteps(req), req.ifaces, req.name);
    assert AllStepsOf(Forward(prev, req), req.ifaces, req.name);
  }

  // ---- runs in which every command works ----

  predicate NoBail(steps: seq<Step>) {
    forall s | s in steps :: !s.Bail?
  }

  /** What the steps do when every command works. */
  function Effect(net: Net, steps: seq<Step>): Net
    requires NoBail(steps)
    decreases |steps|
  {
    if steps == [] then net
    else
      assert forall s | s in steps[1..] :: s in steps;
      Effect(Apply(net, steps[0].cmd), steps[1..])
  }

  function EffectLog(net: Net, steps: seq<Step>): seq<Net>
    requires NoBail(steps)
    decreases |steps|
  {
    if steps == [] then []
    else
      assert forall s | s in steps[1..] :: s in steps;
      var next := Apply(net, steps[0].cmd);
      [next] + EffectLog(next, steps[1..])
  }

  predicate AllLucky(luck: Luck, from: nat, to: nat) {
    forall k | from <= k < to :: luck(k)
  }

  lemma {:induction false} LuckySteps(luck: Luck, t: nat, net: Net, steps: seq<Step>)
    requires NoBail(steps) && AllLucky(luck, t, t + |steps|)
    ensures Steps(luck, t, net, steps) == Outcome(Effect(net, steps), t + |steps|, true, EffectLog(net, steps))
    decreases |steps|
  {
    if steps != [] {
      assert luck(t) && forall s | s in steps[1..] :: s in steps;
      LuckySteps(luck, t + 1, Apply(net, steps[0].cmd), steps[1..]);
    }
  }

  lemma {:induction false} EffectConcat(net: Net, a: seq<Step>, b: seq<Step>)
    requires NoBail(a) && NoBail(b)
    ensures NoBail(a + b)
    ensures Effect(net, a + b) == Effect(Effect(net, a), b)
    ensures EffectLog(net, a + b) == EffectLog(net, a) + EffectLog(Effect(net, a), b)
    decreases |a|
  {
    if a == [] {
      assert a + b == b;
    } else {
      assert (a + b)[0] == a[0] && (a + b)[1..] == a[1..] + b && forall s | s in a[1..] :: s in a;
      EffectConcat(Apply(net, a[0].cmd), a[1..], b);
    }
  }

  lemma EffectOfTwo(net: Net, a: Step, b: Step)
    requires !a.Bail? && !b.Bail?
    ensures NoBail([a, b]) && Effect(net, [a, b]) == Apply(Apply(net, a.cmd), b.cmd)
    ensures EffectLog(net, [a, b]) == [Apply(net, a.cmd), Apply(Apply(net, a.cmd), b.cmd)]
  {
    assert [a, b][1..] == [b] && [b][1..] == [];
    assert NoBail([b]) && NoBail([]);
    assert Effect(Apply(net, a.cmd), [b]) == Effect(Apply(Apply(net, a.cmd), b.cmd), []);
    assert EffectLog(Apply(net, a.cmd), [b]) == [Apply(Apply(net, a.cmd), b.cmd)] + EffectLog(Apply(Apply(net, a.cmd), b.cmd), []);
  }

  /** Undoing one member puts its master back and brings it up. */
  lemma UndoOneEffect(net: Net, prev: map<string, string>, x: string)
    ensures NoBail(UndoOne(prev, x))
    ensures Effect(net, UndoOne(prev, x)) ==
              net.(up := net.up + {x},
                   master := if Lookup(prev, x) != "" then net.master[x := prev[x]] else net.master - {x})
  {
    var steps := UndoOne(prev, x);
    if Lookup(prev, x) != "" {
      assert steps[0] == Try(NoMaster(x)) && steps[1..] == [Try(Master(x, prev[x])), Try(Up(x))];
      EffectOfTwo(Apply(net, NoMaster(x)), Try(Master(x, prev[x])), Try(Up(x)));
      assert (net.master - {x})[x := prev[x]] == net.master[x := prev[x]];
    } else {
      assert steps == [Try(NoMaster(x)), Try(Up(x))];
      EffectOfTwo(net, Try(NoMaster(x)), Try(Up(x)));
    }
  }

  /** `x` is as the undo of `ifaces` leaves it. */
  ghost predicate PutBack(net: Net, n: Net, prev: map<string, string>, ifaces: seq<string>, x: string) {
    if x in ifaces then MasterOf(n, x) == Lookup(prev, x) && (x in n.master ==> n.master[x] != "")
    else (x in n.master <==> x in net.master) && MasterOf(n, x) == MasterOf(net, x)
  }

  ghost predicate AllPutBack(net: Net, n: Net, prev: map<string, string>, ifaces: seq<string>) {
    forall x :: PutBack(net, n, prev, ifaces, x)
  }

  lemma PutBackSnoc(net: Net, n: Net, n': Net, prev: map<string, string>, init: seq<string>, last: string)
    requires AllPutBack(net, n, prev, init)
    requires n'.master == if Lookup(prev, last) != "" then n.master[last := prev[last]] else n.master - {last}
    ensures AllPutBack(net, n', prev, init + [last])
  {
    forall x ensures PutBack(net, n', prev, init + [last], x) {
      assert PutBack(net, n, prev, init, x);
    }
  }

  lemma {:induction false} UndoMembersEffect(net: Net, prev: map<string, string>, ifaces: seq<string>)
    ensures NoBail(UndoMembers(prev, ifaces))
    ensures var n := Effect(net, UndoMembers(prev, ifaces));
            && n.links == net.links && n.primary == net.primary && n.up == net.up + Members(ifaces)
            && AllPutBack(net, n, prev, ifaces)
  {
    if ifaces != [] {
      var init, last := ifaces[..|ifaces| - 1], ifaces[|ifaces| - 1];
      UndoMembersEffect(net, prev, init);
      var n := Effect(net, UndoMembers(prev, init));
      UndoOneEffect(n, prev, last);
      EffectConcat(net, UndoMembers(prev, init), UndoOne(prev, last));
      assert ifaces == init + [last];
      PutBackSnoc(net, n, Effect(net, UndoMembers(prev, ifaces)), prev, init, last);
      assert Members(ifaces) == Members(init) + {last};
    }
  }

  /** Rolling back, whatever the forward steps had done so far. */
  lemma RollbackEffect(net0: Net, net: Net, prev: map<string, string>, req: Request)
    requires WellFormed(net0) && req.name !in net0.links && (forall x | x in req.ifaces :: x in net0.links)
    requires OnlyMembersTouched(net0, net, req.ifaces, req.name)
    requires forall x :: Lookup(prev, x) == if x in req.ifaces then MasterOf(net0, x) else ""
    ensures NoBail(Rollback(prev, req))
    ensures Effect(net, Rollback(prev, req)) == net0.(up := net0.up + Members(req.ifaces))
  {
    UndoMembersEffect(net, prev, req.ifaces);
    var mid := Effect(net, UndoMembers(prev, req.ifaces));
    var down, del := Try(Down(req.name)), Try(Del(req.name));
    EffectOfTwo(mid, down, del);
    EffectConcat(net, UndoMembers(prev, req.ifaces), [down, del]);
    var n := Apply(Apply(mid, Down(req.name)), Del(req.name));
    assert Effect(net, Rollback(prev, req)) == n;
    assert n.links == net0.links;
    UpAfterRollback(net0, net, mid, req);
    MastersRestored(net0, net, mid, n, prev, req);
  }

  lemma UpAfterRollback(net0: Net, net: Net, mid: Net, req: Request)
    requires WellFormed(net0) && req.name !in net0.links && (forall x | x in req.ifaces :: x in net0.links)
    requires OnlyMembersTouched(net0, net, req.ifaces, req.name) && mid.up == net.up + Members(req.ifaces)
    ensures mid.up - {req.name} == net0.up + Members(req.ifaces)
  {
    forall x ensures x in mid.up - {req.name} <==> x in net0.up + Members(req.ifaces) {
      assert x in net.up && x !in req.ifaces && x != req.name ==> x in net0.up;
    }
  }

  lemma MastersRestored(net0: Net, net: Net, mid: Net, n: Net, prev: map<string, string>, req: Request)
    requires WellFormed(net0) && req.name !in net0.links && (forall x | x in req.ifaces :: x in net0.links)
    requires OnlyMembersTouched(net0, net, req.ifaces, req.name)
    requires forall x :: Lookup(prev, x) == if x in req.ifaces then MasterOf(net0, x) else ""
    requires AllPutBack(net, mid, prev, req.ifaces)
    requires n.master == map x | x in mid.master && x != req.name && mid.master[x] != req.name :: mid.master[x]
    ensures n.master == net0.master
  {
    forall x ensures (x in n.master <==> x in net0.master) && (x in n.master ==> n.master[x] == net0.master[x]) {
      assert PutBack(net, mid, prev, req.ifaces, x);
      assert x in net0.master <==> MasterOf(net0, x) != "";
      if x != req.name { assert MasterOf(mid, x) == MasterOf(net0, x); }
    }
  }

  lemma AddedFrame(net: Net, bond: string, prim: string, members: seq<string>)
    requires WellFormed(net) && bond !in net.links
    ensures OnlyMembersTouched(net, Apply(net, AddBond(bond, prim)), members, bond)
  {
    assert bond !in net.primary;
  }

  /** Creation once the bond itself has been added. */
  lemma AddedThen(luck: Luck, t: nat, net: Net, route: DefaultRoute, req: Request)
    requires Accepted(net, route, req) && luck(t)
    ensures var n1 := Apply(net, AddBond(req.name, PrimaryArg(net, req)));
            var prev := PrevMasters(net, req.ifaces);
            var fwd := Steps(luck, t + 1, n1, Forward(prev, req));
            var undone := Steps(luck, fwd.t, fwd.net, Rollback(prev, req));
            Create(luck, t, net, route, req) ==
              if fwd.ok then Result(Created, fwd.(log := [n1] + fwd.log))
              else Result(RolledBack, undone.(log := [n1] + fwd.log + undone.log))
  {
    var add := Must(AddBond(req.name, PrimaryArg(net, req)));
    var n1 := Apply(net, add.cmd);
    assert [add][1..] == [];
    assert Steps(luck, t, net, [add]) == Outcome(n1, t + 1, true, [n1]);
    assert PrevMasters(n1, req.ifaces) == PrevMasters(net, req.ifaces);
  }

  /** Main result on failure: whatever failed after the bond was added, and in whatever pattern, once
      the rollback's own commands work every master is what it was, the bond is gone, and the only
      trace left is that the requested members are up. */
  lemma RollbackRestores(luck: Luck, t: nat, net: Net, route: DefaultRoute, req: Request)
    requires WellFormed(net) && Accepted(net, route, req) && luck(t)
    requires var prev := PrevMasters(net, req.ifaces);
             var fwd := Steps(luck, t + 1, Apply(net, AddBond(req.name, PrimaryArg(net, req))), Forward(prev, req));
             !fwd.ok && AllLucky(luck, fwd.t, fwd.t + |Rollback(prev, req)|)
    ensures Create(luck, t, net, route, req).verdict == RolledBack
    ensures Create(luck, t, net, route, req).out.net == net.(up := net.up + Members(req.ifaces))
  {
    var n1 := Apply(net, AddBond(req.name, PrimaryArg(net, req)));
    var prev := PrevMasters(net, req.ifaces);
    var fwd := Steps(luck, t + 1, n1, Forward(prev, req));
    AddedThen(luck, t, net, route, req);
    AddedFrame(net, req.name, PrimaryArg(net, req), req.ifaces);
    ForwardSteps(prev, req);
    StepsTouchMembers(luck, t + 1, net, n1, Forward(prev, req), req.ifaces, req.name);
    RollbackEffect(net, fwd.net, prev, req);
    LuckySteps(luck, fwd.t, fwd.net, Rollback(prev, req));
  }
}
