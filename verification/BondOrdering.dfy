/** What the order of enslavement achieves: who joins the bond, and what a creation leaves. */
module BondOrdering {
  import opened HostBond

  // ---- who is enslaved ----

  function AttachedOf(prev: map<string, string>, target: string, ifaces: seq<string>): seq<string> {
    if ifaces == [] then []
    else
      var init, last := ifaces[..|ifaces| - 1], ifaces[|ifaces| - 1];
      AttachedOf(prev, target, init) + if AttachedTo(prev, target, last) then [last] else []
  }

  lemma {:induction false} SplitMembers(prev: map<string, string>, target: string, ifaces: seq<string>)
    ensures multiset(ifaces) == multiset(Secondaries(prev, target, ifaces)) + multiset(AttachedOf(prev, target, ifaces))
  {
    if ifaces != [] {
      var init, last := ifaces[..|ifaces| - 1], ifaces[|ifaces| - 1];
      assert ifaces == init + [last];
      SplitMembers(prev, target, init);
      if AttachedTo(prev, target, last) {
        assert multiset(AttachedOf(prev, target, ifaces)) == multiset(AttachedOf(prev, target, init)) + multiset{last};
      } else {
        assert multiset(Secondaries(prev, target, ifaces)) == multiset(Secondaries(prev, target, init)) + multiset{last};
        assert AttachedOf(prev, target, ifaces) == AttachedOf(prev, target, init);
      }
    }
  }

  lemma {:induction false} UplinkIsLastAttached(prev: map<string, string>, target: string, ifaces: seq<string>)
    requires "" !in ifaces
    ensures var a := AttachedOf(prev, target, ifaces);
            Uplink(prev, target, ifaces) == (if a == [] then "" else a[|a| - 1]) && "" !in a
  {
    if ifaces != [] {
      assert ifaces == ifaces[..|ifaces| - 1] + [ifaces[|ifaces| - 1]];
      UplinkIsLastAttached(prev, target, ifaces[..|ifaces| - 1]);
    }
  }

  lemma SortedSize(prev: map<string, string>, target: string, ifaces: seq<string>)
    requires "" !in ifaces
    ensures var a := AttachedOf(prev, target, ifaces);
            Sorted(prev, target, ifaces) == Secondaries(prev, target, ifaces) + if a == [] then [] else [a[|a| - 1]]
    ensures |ifaces| == |Secondaries(prev, target, ifaces)| + |AttachedOf(prev, target, ifaces)|
  {
    SplitMembers(prev, target, ifaces);
    UplinkIsLastAttached(prev, target, ifaces);
    assert |multiset(ifaces)| == |multiset(Secondaries(prev, target, ifaces))| + |multiset(AttachedOf(prev, target, ifaces))|;
  }

  lemma SizesDiffer(a: seq<string>, b: seq<string>)
    requires |a| != |b|
    ensures multiset(a) != multiset(b)
  {
    assert |multiset(a)| == |a| && |multiset(b)| == |b|;
  }

  lemma Rearranged(all: seq<string>, s: seq<string>, a: seq<string>, sorted: seq<string>)
    requires multiset(all) == multiset(s) + multiset(a) && |a| <= 1
    requires sorted == s + if a == [] then [] else [a[|a| - 1]]
    ensures multiset(sorted) == multiset(all)
  {
    assert a == if a == [] then [] else [a[|a| - 1]];
    assert multiset(s + a) == multiset(s) + multiset(a);
  }

  /** Enslavement follows a permutation of the request exactly when at most one position of it is
      attached to the target bridge. */
  lemma SortedIsPermutation(prev: map<string, string>, target: string, ifaces: seq<string>)
    requires "" !in ifaces
    ensures multiset(Sorted(prev, target, ifaces)) == multiset(ifaces) <==> |AttachedOf(prev, target, ifaces)| <= 1
  {
    if |AttachedOf(prev, target, ifaces)| <= 1 {
      SortedSize(prev, target, ifaces);
      SplitMembers(prev, target, ifaces);
      Rearranged(ifaces, Secondaries(prev, target, ifaces), AttachedOf(prev, target, ifaces), Sorted(prev, target, ifaces));
    } else {
      SortedSize(prev, target, ifaces);
      SizesDiffer(Sorted(prev, target, ifaces), ifaces);
    }
  }

  /** The members that are not enslaved at all: every attached one but the last. */
  lemma DroppedExactly(prev: map<string, string>, target: string, ifaces: seq<string>, x: string)
    requires "" !in ifaces && x in ifaces
    ensures x !in Sorted(prev, target, ifaces) <==> AttachedTo(prev, target, x) && x != Uplink(prev, target, ifaces)
  {
    SortedMembers(prev, target, ifaces);
    if AttachedTo(prev, target, x) { AttachedHasUplink(prev, target, ifaces, x); }
  }

  lemma {:induction false} AttachedHasUplink(prev: map<string, string>, target: string, ifaces: seq<string>, x: string)
    requires "" !in ifaces && x in ifaces && AttachedTo(prev, target, x)
    ensures Uplink(prev, target, ifaces) != ""
  {
    var init, last := ifaces[..|ifaces| - 1], ifaces[|ifaces| - 1];
    if !AttachedTo(prev, target, last) {
      assert ifaces == init + [last];
      AttachedHasUplink(prev, target, init, x);
    }
  }

  // ---- what a successful creation leaves ----

  function Subject(c: Cmd): string {
    if c.AddBond? then c.bond else c.link
  }

  /** `x` has the master and the up state it had before. */
  ghost predicate Same(net: Net, n: Net, x: string) {
    (x in n.master <==> x in net.master) && MasterOf(n, x) == MasterOf(net, x) && (x in n.up <==> x in net.up)
  }

  ghost predicate LeavesAlone(steps: seq<Step>, x: string) {
    forall s | s in steps :: !s.Bail? && !s.cmd.Del? && Subject(s.cmd) != x
  }

  lemma {:induction false} LeftAlone(net: Net, steps: seq<Step>, x: string)
    requires LeavesAlone(steps, x)
    ensures NoBail(steps) && Same(net, Effect(net, steps), x)
    ensures forall n | n in EffectLog(net, steps) :: Same(net, n, x)
    decreases |steps|
  {
    if steps != [] {
      var next := Apply(net, steps[0].cmd);
      assert forall s | s in steps[1..] :: s in steps;
      LeftAlone(next, steps[1..], x);
      assert Same(net, next, x);
    }
  }

  lemma EnslaveEffect(net: Net, x: string, bond: string)
    ensures NoBail(Enslave(x, bond))
    ensures Effect(net, Enslave(x, bond)) == net.(master := net.master[x := bond], up := net.up + {x})
  {
    var s := Enslave(x, bond);
    var head, tail := [s[0], s[1]], [s[3], s[4]];
    EffectOfTwo(net, s[0], s[1]);
    var n := Effect(net, head);
    var n' := Apply(n, s[2].cmd);
    EffectOfTwo(n', s[3], s[4]);
    assert s[2..] == [s[2]] + tail && s == head + s[2..];
    assert s[2..][0] == s[2] && s[2..][1..] == tail;
    EffectConcat(net, head, s[2..]);
    assert (net.master - {x})[x := bond] == net.master[x := bond];
    assert net.up - {x} + {x} == net.up + {x};
  }

  ghost predicate Joined(net: Net, n: Net, sorted: seq<string>, bond: string, x: string) {
    if x in sorted then MasterOf(n, x) == bond && x in n.master && x in n.up else Same(net, n, x)
  }

  ghost predicate AllJoined(net: Net, n: Net, sorted: seq<string>, bond: string) {
    forall x :: Joined(net, n, sorted, bond, x)
  }

  lemma {:induction false} EnslaveAllEffect(net: Net, sorted: seq<string>, bond: string)
    ensures NoBail(EnslaveAll(sorted, bond))
    ensures var n := Effect(net, EnslaveAll(sorted, bond));
            n.links == net.links && n.primary == net.primary && AllJoined(net, n, sorted, bond)
  {
    if sorted != [] {
      var init, last := sorted[..|sorted| - 1], sorted[|sorted| - 1];
      EnslaveAllEffect(net, init, bond);
      var n := Effect(net, EnslaveAll(init, bond));
      EnslaveEffect(n, last, bond);
      EffectConcat(net, EnslaveAll(init, bond), Enslave(last, bond));
      var n' := Effect(net, EnslaveAll(sorted, bond));
      assert sorted == init + [last];
      forall x ensures Joined(net, n', sorted, bond, x) {
        assert Joined(net, n, init, bond, x);
      }
    }
  }

  lemma {:induction false} EnslaveLeavesAlone(sorted: seq<string>, bond: string, x: string)
    requires x !in sorted
    ensures LeavesAlone(EnslaveAll(sorted, bond), x)
  {
    if sorted != [] {
      var init, last := sorted[..|sorted| - 1], sorted[|sorted| - 1];
      assert sorted == init + [last];
      EnslaveLeavesAlone(init, bond, x);
      assert forall s | s in Enslave(last, bond) :: !s.Bail? && !s.cmd.Del? && Subject(s.cmd) == last;
    }
  }

  /** The bond is there, up, and on its bridge if it has one. */
  function Raised(net: Net, prim: string, req: Request): Net {
    var n := Apply(net, AddBond(req.name, prim));
    n.(up := n.up + {req.name}, master := if req.target != "" then n.master[req.name := req.target] else n.master)
  }

  lemma RaiseEffect(n: Net, req: Request)
    ensures NoBail(RaiseSteps(req))
    ensures Effect(n, RaiseSteps(req)) ==
              n.(up := n.up + {req.name}, master := if req.target != "" then n.master[req.name := req.target] else n.master)
    ensures EffectLog(n, RaiseSteps(req)) != []
  {
    var u := Must(Up(req.name));
    if req.target != "" {
      assert RaiseSteps(req) == [u, Must(Master(req.name, req.target))];
      EffectOfTwo(n, u, Must(Master(req.name, req.target)));
    } else {
      assert RaiseSteps(req) == [u] && [u][1..] == [];
    }
  }

  function Order(net: Net, req: Request): seq<string> {
    Sorted(PrevMasters(net, req.ifaces), req.target, req.ifaces)
  }

  function Secs(net: Net, req: Request): seq<string> {
    Secondaries(PrevMasters(net, req.ifaces), req.target, req.ifaces)
  }

  /** An attached member that is enslaved is the last one. */
  lemma OrderEndsIn(net: Net, req: Request, u: string)
    requires "" !in req.ifaces && req.target != "" && MasterOf(net, u) == req.target && u in Order(net, req)
    ensures Order(net, req) == Secs(net, req) + [u] && u !in Secs(net, req)
  {
    var prev := PrevMasters(net, req.ifaces);
    SortedMembers(prev, req.target, req.ifaces);
    assert u in req.ifaces && AttachedTo(prev, req.target, u);
  }

  lemma ForwardOnBridge(prev: map<string, string>, req: Request)
    requires req.target != ""
    ensures Forward(prev, req) == RaiseSteps(req) + EnslaveAll(Sorted(prev, req.target, req.ifaces), req.name)
  {
  }

  lemma ForwardEffect(net: Net, req: Request)
    requires req.target != "" && req.ifaces != []
    ensures var n1 := Apply(net, AddBond(req.name, PrimaryArg(net, req)));
            var n2 := Raised(net, PrimaryArg(net, req), req);
            var fwd := Forward(PrevMasters(net, req.ifaces), req);
            var all := EnslaveAll(Order(net, req), req.name);
            && NoBail(RaiseSteps(req)) && NoBail(all) && NoBail(fwd)
            && Effect(n1, fwd) == Effect(n2, all)
            && EffectLog(n1, fwd) == EffectLog(n1, RaiseSteps(req)) + EffectLog(n2, all)
  {
    var n1 := Apply(net, AddBond(req.name, PrimaryArg(net, req)));
    RaiseEffect(n1, req);
    var all := EnslaveAll(Order(net, req), req.name);
    EnslaveAllEffect(Raised(net, PrimaryArg(net, req), req), Order(net, req), req.name);
    EffectConcat(n1, RaiseSteps(req), all);
    ForwardOnBridge(PrevMasters(net, req.ifaces), req);
  }

  /** A creation on a bridge in which every command works. */
  lemma LuckyCreate(luck: Luck, t: nat, net: Net, route: DefaultRoute, req: Request)
    requires Accepted(net, route, req) && req.target != "" && forall k :: luck(k)
    ensures var n1 := Apply(net, AddBond(req.name, PrimaryArg(net, req)));
            var n2 := Raised(net, PrimaryArg(net, req), req);
            var all := EnslaveAll(Order(net, req), req.name);
            && NoBail(RaiseSteps(req)) && NoBail(all)
            && Create(luck, t, net, route, req).verdict == Created
            && Create(luck, t, net, route, req).out.net == Effect(n2, all)
            && Create(luck, t, net, route, req).out.log == [n1] + (EffectLog(n1, RaiseSteps(req)) + EffectLog(n2, all))
  {
    AddedThen(luck, t, net, route, req);
    ForwardEffect(net, req);
    LuckySteps(luck, t + 1, Apply(net, AddBond(req.name, PrimaryArg(net, req))), Forward(PrevMasters(net, req.ifaces), req));
  }
}
