/** Quota over whole runs, each check and its effect being one step. */
module QuotaRuns {
  import opened Wrappers
  import opened Quota
  import opened QuotaChecks

  datatype Sys = Sys(users: map<string, User>, vms: seq<VM>)

  /** `CreateOver` uses a disk that exists: the request declares a size, the disk has its own. `Attach`
      brings an existing disk to a VM. `Resize` is asked for by the owner, `AdminResize` by an admin. */
  datatype Action =
    | Create(owner: string, id: string, vcpus: int, ramMB: int, pool: string, sizeGB: int)
    | CreateOver(owner: string, id: string, vcpus: int, ramMB: int, declaredGB: int, pool: string, realGB: int)
    | Delete(id: string)
    | Start(id: string)
    | Stop(id: string)
    | Resize(id: string, vcpus: int, ramMB: int)
    | AdminResize(id: string, vcpus: int, ramMB: int)
    | AddDisk(id: string, pool: string, sizeGB: int)
    | Attach(id: string, pool: string, sizeGB: int)
    | SetLimits(user: string, limits: Limits)

  function HostOf(s: Sys): Host {
    Host(Some(s.users), Live(s.vms))
  }

  predicate Adds(a: Action) {
    a.Create? || a.CreateOver?
  }

  function SizeOf(a: Action): int
    requires Adds(a)
  {
    if a.Create? then a.sizeGB else a.realGB
  }

  function NewVM(a: Action): VM
    requires Adds(a)
  {
    VM(a.id, a.owner, false, Shutoff, a.vcpus, a.ramMB, SizeOf(a), [Disk("disk", false, "file", "", "", a.pool, SizeOf(a))])
  }

  function WithDisk(vm: VM, pool: string, sizeGB: int): VM {
    vm.(disks := vm.disks + [Disk("disk", false, "file", "", "", pool, sizeGB)])
  }

  function Growth(was: int, now: int): int {
    if now > was then now - was else 0
  }

  /** Over an existing disk only the declared size is checked, and no pool. */
  ghost predicate MayCreate(s: Sys, a: Action)
    requires Adds(a)
  {
    && IndexOf(s.vms, a.id) == |s.vms|
    && Admits(HostOf(s), a.owner, Usage(1, a.vcpus, a.ramMB, if a.Create? then a.sizeGB else a.declaredGB))
    && (a.Create? ==> DiskAdmits(HostOf(s), a.owner, map[a.pool := a.sizeGB]))
  }

  ghost predicate MayResize(s: Sys, vm: VM, vcpus: int, ramMB: int) {
    var v, r := Growth(vm.vcpus, vcpus), Growth(vm.ramMB, ramMB);
    (v > 0 || r > 0) ==> Admits(HostOf(s), vm.owner, Usage(0, v, r, 0))
  }

  ghost predicate MayAddDisk(s: Sys, vm: VM, pool: string, sizeGB: int) {
    sizeGB > 0 && (vm.owner != "" && Known(HostOf(s), vm.owner) ==> DiskAdmits(HostOf(s), vm.owner, map[pool := sizeGB]))
  }

  /** The actions on one VM that leave it in place. */
  predicate Changes(a: Action) {
    a.Start? || a.Stop? || a.Resize? || a.AdminResize? || a.AddDisk? || a.Attach?
  }

  ghost predicate MayChange(s: Sys, a: Action, vm: VM)
    requires Changes(a)
  {
    match a
    case Start(id) => StartAdmits(HostOf(s), id)
    case Stop(_) => true
    case Resize(_, v, r) => MayResize(s, vm, v, r)
    case AdminResize(_, _, _) => true
    case AddDisk(_, pool, gb) => MayAddDisk(s, vm, pool, gb)
    case Attach(_, _, _) => true
  }

  function Changed(a: Action, vm: VM): VM
    requires Changes(a)
  {
    match a
    case Start(_) => vm.(state := Running)
    case Stop(_) => vm.(state := Shutoff)
    case Resize(_, v, r) => vm.(vcpus := v, ramMB := r)
    case AdminResize(_, v, r) => vm.(vcpus := v, ramMB := r)
    case AddDisk(_, pool, gb) => WithDisk(vm, pool, gb)
    case Attach(_, pool, gb) => WithDisk(vm, pool, gb)
  }

  ghost function Do(s: Sys, a: Action): Sys {
    if Adds(a) then
      if MayCreate(s, a) then s.(vms := s.vms + [NewVM(a)]) else s
    else if a.SetLimits? then
      if a.user in s.users then s.(users := s.users[a.user := s.users[a.user].(limits := a.limits)]) else s
    else
      var i := IndexOf(s.vms, a.id);
      if i == |s.vms| then s
      else if a.Delete? then s.(vms := s.vms[..i] + s.vms[i + 1..])
      else if MayChange(s, a, s.vms[i]) then s.(vms := s.vms[i := Changed(a, s.vms[i])])
      else s
  }

  ghost function Run(s: Sys, actions: seq<Action>): Sys
    decreases |actions|
  {
    if actions == [] then s else Run(Do(s, actions[0]), actions[1..])
  }

  // ---- totals under change ----

  lemma {:induction false} TotalConcat(m: Measure, o: string, a: seq<VM>, b: seq<VM>)
    ensures Total(m, o, a + b) == Total(m, o, a) + Total(m, o, b)
  {
    if b == [] {
      assert a + b == a;
    } else {
      var init, last := b[..|b| - 1], b[|b| - 1];
      assert a + b == (a + init) + [last];
      TotalConcat(m, o, a, init);
      TotalSnoc(m, o, a + init, last);
    }
  }


  ghost function Share(m: Measure, o: string, vm: VM): int {
    if vm.owner == o then Weight(m, vm) else 0
  }

  lemma TotalAround(m: Measure, o: string, vms: seq<VM>, i: nat)
    requires i < |vms|
    ensures Total(m, o, vms) == Total(m, o, vms[..i]) + Share(m, o, vms[i]) + Total(m, o, vms[i + 1..])
  {
    assert vms == vms[..i] + [vms[i]] + vms[i + 1..];
    TotalConcat(m, o, vms[..i] + [vms[i]], vms[i + 1..]);
    TotalSnoc(m, o, vms[..i], vms[i]);
  }

  lemma TotalReplace(m: Measure, o: string, vms: seq<VM>, i: nat, vm: VM)
    requires i < |vms|
    ensures Total(m, o, vms[i := vm]) == Total(m, o, vms) - Share(m, o, vms[i]) + Share(m, o, vm)
  {
    TotalAround(m, o, vms, i);
    TotalAround(m, o, vms[i := vm], i);
    assert vms[i := vm][..i] == vms[..i] && vms[i := vm][i + 1..] == vms[i + 1..];
  }

  lemma TotalRemove(m: Measure, o: string, vms: seq<VM>, i: nat)
    requires i < |vms|
    ensures Total(m, o, vms[..i] + vms[i + 1..]) == Total(m, o, vms) - Share(m, o, vms[i])
  {
    TotalAround(m, o, vms, i);
    TotalConcat(m, o, vms[..i], vms[i + 1..]);
  }

  ghost predicate DistinctIds(vms: seq<VM>) {
    forall i, j | 0 <= i < j < |vms| :: vms[i].id != vms[j].id
  }

  lemma {:induction false} WithoutMissing(vms: seq<VM>, id: string)
    requires forall i | 0 <= i < |vms| :: vms[i].id != id
    ensures Without(vms, id) == vms
  {
    if vms != [] { WithoutMissing(vms[..|vms| - 1], id); }
  }

  lemma WithoutSnoc(init: seq<VM>, last: VM, id: string)
    ensures Without(init + [last], id) == Without(init, id) + if last.id == id then [] else [last]
  {
    assert (init + [last])[..|init|] == init;
  }

  lemma {:induction false} TotalWithout(m: Measure, o: string, vms: seq<VM>, i: nat)
    requires DistinctIds(vms) && i < |vms|
    ensures Total(m, o, Without(vms, vms[i].id)) == Total(m, o, vms) - Share(m, o, vms[i])
  {
    var init, last := vms[..|vms| - 1], vms[|vms| - 1];
    assert vms == init + [last];
    WithoutSnoc(init, last, vms[i].id);
    TotalSnoc(m, o, init, last);
    if i == |init| {
      WithoutMissing(init, last.id);
      assert init + [] == init;
    } else {
      assert last.id != vms[i].id && DistinctIds(init) && init[i] == vms[i];
      TotalWithout(m, o, init, i);
      TotalSnoc(m, o, Without(init, vms[i].id), last);
    }
  }

  // ---- sane figures ----

  ghost predicate SaneVM(vm: VM) {
    vm.vcpus >= 0 && vm.ramMB >= 0 && vm.diskGB >= 0 && forall i | 0 <= i < |vm.disks| :: vm.disks[i].sizeGB >= 0
  }

  ghost predicate SaneSys(s: Sys) {
    DistinctIds(s.vms) && forall i | 0 <= i < |s.vms| :: SaneVM(s.vms[i])
  }

  predicate SaneAction(a: Action) {
    match a
    case Create(_, _, v, r, _, gb) => v >= 0 && r >= 0 && gb >= 0
    case CreateOver(_, _, v, r, declared, _, gb) => v >= 0 && r >= 0 && declared >= 0 && gb >= 0
    case Resize(_, v, r) => v >= 0 && r >= 0
    case AdminResize(_, v, r) => v >= 0 && r >= 0
    case Attach(_, _, gb) => gb >= 0
    case _ => true
  }

  lemma {:induction false} PoolsNonNegative(disks: seq<Disk>, p: string)
    requires forall i | 0 <= i < |disks| :: disks[i].sizeGB >= 0
    ensures At(PoolsOf(disks), p) >= 0 && CountableSum(disks) >= 0
  {
    if disks != [] { PoolsNonNegative(disks[..|disks| - 1], p); }
  }

  lemma WeightNonNegative(m: Measure, vm: VM)
    requires SaneVM(vm)
    ensures Weight(m, vm) >= 0
  {
    PoolsNonNegative(vm.disks, if m.InPool? then m.pool else "");
    ViewsAgree(vm);
  }

  lemma {:induction false} NoCountableNoPools(disks: seq<Disk>)
    requires !HasCountable(disks)
    ensures PoolsOf(disks) == map[]
  {
    if disks != [] {
      var init := disks[..|disks| - 1];
      assert !CountsAgainstQuota(disks[|disks| - 1]);
      forall i | 0 <= i < |init| ensures !CountsAgainstQuota(init[i]) { assert init[i] == disks[i]; }
      NoCountableNoPools(init);
    }
  }

  /** What a new disk changes in the bill of a VM, pool by pool: with its first countable disk the
      legacy figure is dropped. */
  function Billed(vm: VM, pool: string, gb: int): map<string, int> {
    if HasCountable(vm.disks) then map[pool := gb] else Bump(map["" := -vm.diskGB], pool, gb)
  }

  lemma BilledSum(vm: VM, pool: string, gb: int)
    ensures SumMap(Billed(vm, pool, gb)) == gb - if HasCountable(vm.disks) then 0 else vm.diskGB
  {
    SumSingle(pool, gb);
    SumSingle("", -vm.diskGB);
    SumBump(map["" := -vm.diskGB], pool, gb);
  }

  lemma WithDiskPools(vm: VM, pool: string, gb: int)
    ensures ByPool(WithDisk(vm, pool, gb)) == Bump(PoolsOf(vm.disks), pool, gb)
    ensures !HasCountable(vm.disks) ==> PoolsOf(vm.disks) == map[]
    ensures CountableSum(WithDisk(vm, pool, gb).disks) == CountableSum(vm.disks) + gb
  {
    var vm' := WithDisk(vm, pool, gb);
    assert vm'.disks[..|vm'.disks| - 1] == vm.disks && CountsAgainstQuota(vm'.disks[|vm'.disks| - 1]);
    assert HasCountable(vm'.disks);
    if !HasCountable(vm.disks) { NoCountableNoPools(vm.disks); }
  }

  /** A new disk changes the two views of a VM's bill by exactly that. */
  lemma DiskAdds(vm: VM, pool: string, gb: int)
    ensures forall p :: At(ByPool(WithDisk(vm, pool, gb)), p) == At(ByPool(vm), p) + At(Billed(vm, pool, gb), p)
    ensures SumMap(ByPool(WithDisk(vm, pool, gb))) == SumMap(ByPool(vm)) + SumMap(Billed(vm, pool, gb))
  {
    WithDiskPools(vm, pool, gb);
    BilledSum(vm, pool, gb);
    SumBump(PoolsOf(vm.disks), pool, gb);
    SumSingle("", vm.diskGB);
    assert SumMap(map[]) == 0;
  }

  // ---- staying within quota ----

  ghost predicate Limited(s: Sys, o: string) {
    o != "" && o in s.users && !s.users[o].admin
  }

  /** Within every limit, disk being counted pool by pool. */
  ghost predicate Within(q: Limits, vms: seq<VM>, o: string) {
    && Caps(q.vms, Total(Count, o, vms)) && Caps(q.vcpus, Total(VCPUs, o, vms)) && Caps(q.ramMB, Total(RAM, o, vms))
    && DiskWithin(q, vms, o, map[])
  }

  ghost predicate Good(s: Sys, o: string) {
    Limited(s, o) && Within(s.users[o].limits, s.vms, o)
  }

  lemma DisabledIsVacuous(q: Limits, vms: seq<VM>, o: string, u: Usage, add: map<string, int>)
    requires !Enabled(q)
    ensures UsageWithin(q, vms, o, u) && DiskWithin(q, vms, o, add)
  {
  }

  /** For a limited owner the checks are the plain inequalities. */
  lemma ChecksAreBounds(s: Sys, o: string, u: Usage, add: map<string, int>)
    requires Limited(s, o)
    ensures Admits(HostOf(s), o, u) <==> UsageWithin(s.users[o].limits, s.vms, o, u)
    ensures DiskAdmits(HostOf(s), o, add) <==> DiskWithin(s.users[o].limits, s.vms, o, add)
  {
    if !Enabled(s.users[o].limits) { DisabledIsVacuous(s.users[o].limits, s.vms, o, u, add); }
  }

  /** No measure that Within looks at grows. */
  ghost predicate NoGrowth(o: string, vms: seq<VM>, vms': seq<VM>) {
    && Total(Count, o, vms') <= Total(Count, o, vms) && Total(VCPUs, o, vms') <= Total(VCPUs, o, vms)
    && Total(RAM, o, vms') <= Total(RAM, o, vms) && Total(PoolTotal, o, vms') <= Total(PoolTotal, o, vms)
    && (forall p :: Total(InPool(p), o, vms') <= Total(InPool(p), o, vms))
  }

  lemma NoGrowthKeeps(q: Limits, o: string, vms: seq<VM>, vms': seq<VM>)
    requires NoGrowth(o, vms, vms') && Within(q, vms, o)
    ensures Within(q, vms', o)
  {
    forall p | p in q.pools ensures Caps(q.pools[p], Total(InPool(p), o, vms') + At(map[], p)) {
      assert Caps(q.pools[p], Total(InPool(p), o, vms) + At(map[], p));
    }
  }

  lemma ReplaceNoGrowth(o: string, vms: seq<VM>, i: nat, vm: VM)
    requires i < |vms| && vm.owner == vms[i].owner && vm.vcpus <= vms[i].vcpus && vm.ramMB <= vms[i].ramMB
    requires vm.disks == vms[i].disks && vm.diskGB == vms[i].diskGB
    ensures NoGrowth(o, vms, vms[i := vm])
  {
    TotalReplace(Count, o, vms, i, vm);
    TotalReplace(VCPUs, o, vms, i, vm);
    TotalReplace(RAM, o, vms, i, vm);
    TotalReplace(PoolTotal, o, vms, i, vm);
    forall p ensures Total(InPool(p), o, vms[i := vm]) <= Total(InPool(p), o, vms) {
      TotalReplace(InPool(p), o, vms, i, vm);
    }
  }

  lemma RemoveNoGrowth(o: string, vms: seq<VM>, i: nat)
    requires i < |vms| && SaneVM(vms[i])
    ensures NoGrowth(o, vms, vms[..i] + vms[i + 1..])
  {
    var rest := vms[..i] + vms[i + 1..];
    forall m: Measure ensures Total(m, o, rest) <= Total(m, o, vms) {
      TotalRemove(m, o, vms, i);
      WeightNonNegative(m, vms[i]);
    }
  }

  lemma NewWeights(a: Action)
    requires Adds(a)
    ensures ByPool(NewVM(a)) == map[a.pool := SizeOf(a)] && SumMap(ByPool(NewVM(a))) == SizeOf(a)
    ensures TotalDisk(NewVM(a)) == SizeOf(a) && !Exceptional(NewVM(a))
  {
    var disks := NewVM(a).disks;
    assert disks[..0] == [] && CountsAgainstQuota(disks[0]);
    assert CountableSum(disks) == CountableSum(disks[..0]) + SizeOf(a);
    assert PoolsOf(disks) == Bump(PoolsOf(disks[..0]), a.pool, SizeOf(a));
    SumSingle(a.pool, SizeOf(a));
  }

  lemma NewDiskIn(vms: seq<VM>, a: Action, o: string, p: string)
    requires Adds(a)
    ensures Total(InPool(p), o, vms + [NewVM(a)]) == Total(InPool(p), o, vms) + if a.owner == o then At(map[a.pool := SizeOf(a)], p) else 0
  {
    NewWeights(a);
    TotalSnoc(InPool(p), o, vms, NewVM(a));
  }

  /** Appending a VM is billing its disk. */
  lemma NewDiskWithin(q: Limits, vms: seq<VM>, a: Action, o: string)
    requires Adds(a)
    ensures DiskWithin(q, vms + [NewVM(a)], o, map[]) <==>
              DiskWithin(q, vms, o, if a.owner == o then map[a.pool := SizeOf(a)] else map[])
  {
    NewWeights(a);
    SumSingle(a.pool, SizeOf(a));
    assert SumMap(map[]) == 0;
    TotalSnoc(PoolTotal, o, vms, NewVM(a));
    forall p ensures Total(InPool(p), o, vms + [NewVM(a)]) ==
                       Total(InPool(p), o, vms) + if a.owner == o then At(map[a.pool := SizeOf(a)], p) else 0
    {
      NewDiskIn(vms, a, o, p);
    }
  }

  lemma CreateExact(s: Sys, a: Action, o: string)
    requires Adds(a) && MayCreate(s, a) && Good(s, o)
    ensures Good(Do(s, a), o) <==> (a.owner == o ==> DiskWithin(s.users[o].limits, s.vms, o, map[a.pool := SizeOf(a)]))
  {
    TotalSnoc(Count, o, s.vms, NewVM(a));
    TotalSnoc(VCPUs, o, s.vms, NewVM(a));
    TotalSnoc(RAM, o, s.vms, NewVM(a));
    NewDiskWithin(s.users[o].limits, s.vms, a, o);
    if a.owner == o {
      ChecksAreBounds(s, o, Usage(1, a.vcpus, a.ramMB, if a.Create? then a.sizeGB else a.declaredGB), map[]);
    }
  }

  lemma ResizeKeeps(s: Sys, i: nat, v: int, r: int, o: string)
    requires i < |s.vms| && MayResize(s, s.vms[i], v, r) && Good(s, o)
    ensures Within(s.users[o].limits, s.vms[i := s.vms[i].(vcpus := v, ramMB := r)], o)
  {
    var vm := s.vms[i];
    var vm' := vm.(vcpus := v, ramMB := r);
    var vms' := s.vms[i := vm'];
    if v <= vm.vcpus && r <= vm.ramMB {
      ReplaceNoGrowth(o, s.vms, i, vm');
      NoGrowthKeeps(s.users[o].limits, o, s.vms, vms');
    } else {
      var lower := vm.(vcpus := if v <= vm.vcpus then v else vm.vcpus, ramMB := if r <= vm.ramMB then r else vm.ramMB);
      ReplaceNoGrowth(o, s.vms, i, lower);
      var mid := s.vms[i := lower];
      NoGrowthKeeps(s.users[o].limits, o, s.vms, mid);
      if vm.owner == o {
        ChecksAreBounds(s, o, Usage(0, Growth(vm.vcpus, v), Growth(vm.ramMB, r), 0), map[]);
      }
      GrowthBounded(s.vms, i, vm', o);
      SameDisks(s.users[o].limits, s.vms, i, vm', o);
    }
  }

  lemma GrowthBounded(vms: seq<VM>, i: nat, vm': VM, o: string)
    requires i < |vms| && vm'.owner == vms[i].owner
    ensures Total(Count, o, vms[i := vm']) == Total(Count, o, vms)
    ensures var own := vms[i].owner == o;
            && Total(VCPUs, o, vms[i := vm']) <= Total(VCPUs, o, vms) + (if own then Growth(vms[i].vcpus, vm'.vcpus) else 0)
            && Total(RAM, o, vms[i := vm']) <= Total(RAM, o, vms) + (if own then Growth(vms[i].ramMB, vm'.ramMB) else 0)
  {
    TotalReplace(Count, o, vms, i, vm');
    TotalReplace(VCPUs, o, vms, i, vm');
    TotalReplace(RAM, o, vms, i, vm');
  }

  lemma SameDisks(q: Limits, vms: seq<VM>, i: nat, vm': VM, o: string)
    requires i < |vms| && vm'.owner == vms[i].owner && vm'.disks == vms[i].disks && vm'.diskGB == vms[i].diskGB
    ensures forall add :: DiskWithin(q, vms, o, add) <==> DiskWithin(q, vms[i := vm'], o, add)
  {
    TotalReplace(PoolTotal, o, vms, i, vm');
    forall p ensures Total(InPool(p), o, vms[i := vm']) == Total(InPool(p), o, vms) {
      TotalReplace(InPool(p), o, vms, i, vm');
    }
  }

  lemma WithDiskWithin(q: Limits, vms: seq<VM>, i: nat, pool: string, gb: int, o: string)
    requires i < |vms|
    ensures DiskWithin(q, vms[i := WithDisk(vms[i], pool, gb)], o, map[]) <==>
              DiskWithin(q, vms, o, if vms[i].owner == o then Billed(vms[i], pool, gb) else map[])
  {
    var vms' := vms[i := WithDisk(vms[i], pool, gb)];
    var add: map<string, int> := if vms[i].owner == o then Billed(vms[i], pool, gb) else map[];
    DiskAdds(vms[i], pool, gb);
    assert SumMap(map[]) == 0;
    TotalReplace(PoolTotal, o, vms, i, vms'[i]);
    forall p ensures Total(InPool(p), o, vms') + At(map[], p) == Total(InPool(p), o, vms) + At(add, p) {
      TotalReplace(InPool(p), o, vms, i, vms'[i]);
    }
  }

  /** The limits after an existing disk, or a new one, has joined VM `i`. */
  lemma DiskExact(s: Sys, i: nat, pool: string, gb: int, o: string)
    requires i < |s.vms| && Good(s, o)
    ensures Within(s.users[o].limits, s.vms[i := WithDisk(s.vms[i], pool, gb)], o) <==>
              (s.vms[i].owner == o ==> DiskWithin(s.users[o].limits, s.vms, o, Billed(s.vms[i], pool, gb)))
  {
    GrowthBounded(s.vms, i, WithDisk(s.vms[i], pool, gb), o);
    WithDiskWithin(s.users[o].limits, s.vms, i, pool, gb, o);
  }

  lemma AddDiskKeeps(s: Sys, i: nat, pool: string, gb: int, o: string)
    requires i < |s.vms| && SaneVM(s.vms[i]) && MayAddDisk(s, s.vms[i], pool, gb) && Good(s, o)
    ensures Within(s.users[o].limits, s.vms[i := WithDisk(s.vms[i], pool, gb)], o)
  {
    var q, vm := s.users[o].limits, s.vms[i];
    DiskExact(s, i, pool, gb, o);
    if vm.owner == o {
      ChecksAreBounds(s, o, Usage(0, 0, 0, 0), map[pool := gb]);
      BilledSum(vm, pool, gb);
      SumSingle(pool, gb);
      forall p | p in q.pools ensures Caps(q.pools[p], Total(InPool(p), o, s.vms) + At(Billed(vm, pool, gb), p)) {
        assert Caps(q.pools[p], Total(InPool(p), o, s.vms) + At(map[pool := gb], p));
      }
    }
  }

  ghost predicate ResizeFits(q: Limits, vms: seq<VM>, i: nat, v: int, r: int, o: string)
    requires i < |vms|
  {
    Caps(q.vcpus, Total(VCPUs, o, vms) - vms[i].vcpus + v) && Caps(q.ramMB, Total(RAM, o, vms) - vms[i].ramMB + r)
  }

  lemma AdminResizeExact(s: Sys, i: nat, v: int, r: int, o: string)
    requires i < |s.vms| && Good(s, o)
    ensures Within(s.users[o].limits, s.vms[i := s.vms[i].(vcpus := v, ramMB := r)], o) <==>
              (s.vms[i].owner == o ==> ResizeFits(s.users[o].limits, s.vms, i, v, r, o))
  {
    var vm' := s.vms[i].(vcpus := v, ramMB := r);
    SameDisks(s.users[o].limits, s.vms, i, vm', o);
    TotalReplace(Count, o, s.vms, i, vm');
    TotalReplace(VCPUs, o, s.vms, i, vm');
    TotalReplace(RAM, o, s.vms, i, vm');
  }

  // ---- what is not checked ----

  /** Whether a step that the code does not check would have passed the check on what it really brings. */
  ghost predicate Fits(s: Sys, a: Action, o: string)
    requires Limited(s, o)
  {
    var q := s.users[o].limits;
    if a.CreateOver? then a.owner == o && MayCreate(s, a) ==> DiskWithin(q, s.vms, o, map[a.pool := a.realGB])
    else if a.Attach? || a.AdminResize? then
      var i := IndexOf(s.vms, a.id);
      i < |s.vms| && s.vms[i].owner == o ==>
        if a.Attach? then DiskWithin(q, s.vms, o, Billed(s.vms[i], a.pool, a.sizeGB))
        else ResizeFits(q, s.vms, i, a.vcpus, a.ramMB, o)
    else true
  }

  lemma SaneChange(s: Sys, a: Action, i: nat)
    requires SaneSys(s) && SaneAction(a) && Changes(a) && i < |s.vms| && MayChange(s, a, s.vms[i])
    ensures SaneVM(Changed(a, s.vms[i])) && Changed(a, s.vms[i]).id == s.vms[i].id
  {
  }

  lemma SaneStep(s: Sys, a: Action)
    requires SaneSys(s) && SaneAction(a)
    ensures SaneSys(Do(s, a))
  {
    if Adds(a) {
      assert SaneVM(NewVM(a));
    } else if !a.SetLimits? {
      var i := IndexOf(s.vms, a.id);
      if i < |s.vms| && Changes(a) && MayChange(s, a, s.vms[i]) { SaneChange(s, a, i); }
    }
  }

  lemma ChangeExact(s: Sys, a: Action, i: nat, o: string)
    requires SaneSys(s) && Good(s, o) && Changes(a) && i == IndexOf(s.vms, a.id) < |s.vms| && MayChange(s, a, s.vms[i])
    ensures Within(s.users[o].limits, s.vms[i := Changed(a, s.vms[i])], o) <==> Fits(s, a, o)
  {
    if a.Resize? {
      ResizeKeeps(s, i, a.vcpus, a.ramMB, o);
    } else if a.AdminResize? {
      AdminResizeExact(s, i, a.vcpus, a.ramMB, o);
    } else if a.AddDisk? {
      AddDiskKeeps(s, i, a.pool, a.sizeGB, o);
    } else if a.Attach? {
      DiskExact(s, i, a.pool, a.sizeGB, o);
    } else {
      ReplaceNoGrowth(o, s.vms, i, Changed(a, s.vms[i]));
      NoGrowthKeeps(s.users[o].limits, o, s.vms, s.vms[i := Changed(a, s.vms[i])]);
    }
  }

  /** One step keeps an owner within every limit exactly when it is checked, or fits all the same. */
  lemma GoodStep(s: Sys, a: Action, o: string)
    requires SaneSys(s) && Good(s, o) && !(a.SetLimits? && a.user == o)
    ensures Good(Do(s, a), o) <==> Fits(s, a, o)
  {
    if Adds(a) {
      if MayCreate(s, a) {
        CreateExact(s, a, o);
        if a.owner == o && a.Create? { ChecksAreBounds(s, o, Usage(0, 0, 0, 0), map[a.pool := a.sizeGB]); }
      }
    } else if !a.SetLimits? {
      var i := IndexOf(s.vms, a.id);
      if i < |s.vms| {
        if a.Delete? {
          RemoveNoGrowth(o, s.vms, i);
          NoGrowthKeeps(s.users[o].limits, o, s.vms, s.vms[..i] + s.vms[i + 1..]);
        } else if MayChange(s, a, s.vms[i]) {
          ChangeExact(s, a, i, o);
        }
      }
    }
  }

  /** Nobody changes the limits of `o`. */
  predicate KeepsLimits(actions: seq<Action>, o: string) {
    forall a | a in actions :: SaneAction(a) && !(a.SetLimits? && a.user == o)
  }

  ghost predicate GoodThroughout(s: Sys, actions: seq<Action>, o: string)
    decreases |actions|
  {
    Good(s, o) && (actions != [] ==> GoodThroughout(Do(s, actions[0]), actions[1..], o))
  }

  ghost predicate FitsThroughout(s: Sys, actions: seq<Action>, o: string)
    requires Limited(s, o)
    decreases |actions|
  {
    actions != [] ==>
      && Fits(s, actions[0], o)
      && Limited(Do(s, actions[0]), o) && FitsThroughout(Do(s, actions[0]), actions[1..], o)
  }

  lemma StillLimited(s: Sys, a: Action, o: string)
    requires Limited(s, o)
    ensures Limited(Do(s, a), o)
    ensures !(a.SetLimits? && a.user == o) ==> Do(s, a).users[o].limits == s.users[o].limits
  {
  }

  /** Main result: an owner within quota is within every limit after every step of a run exactly when
      each of its unchecked steps fits where it is taken; checks alone never let one through. */
  lemma {:induction false} RunStaysWithin(s: Sys, actions: seq<Action>, o: string)
    requires SaneSys(s) && KeepsLimits(actions, o) && Good(s, o)
    ensures GoodThroughout(s, actions, o) <==> FitsThroughout(s, actions, o)
    decreases |actions|
  {
    if actions != [] {
      assert actions[0] in actions && forall a | a in actions[1..] :: a in actions;
      SaneStep(s, actions[0]);
      StillLimited(s, actions[0], o);
      GoodStep(s, actions[0], o);
      if Fits(s, actions[0], o) { RunStaysWithin(Do(s, actions[0]), actions[1..], o); }
    }
  }

  lemma {:induction false} GoodAtTheEnd(s: Sys, actions: seq<Action>, o: string)
    requires GoodThroughout(s, actions, o)
    ensures Good(Run(s, actions), o)
    decreases |actions|
  {
    if actions != [] { GoodAtTheEnd(Do(s, actions[0]), actions[1..], o); }
  }

  /** Attaching an existing disk can leave the limits wherever there is a disk limit. */
  lemma AttachCanLeave(s: Sys, i: nat, pool: string, o: string)
    requires SaneSys(s) && Good(s, o) && s.users[o].limits.diskGB > 0
    requires i < |s.vms| && i == IndexOf(s.vms, s.vms[i].id) && s.vms[i].owner == o
    ensures exists gb :: gb > 0 && !Good(Do(s, Attach(s.vms[i].id, pool, gb)), o)
  {
    var vm := s.vms[i];
    var gb := s.users[o].limits.diskGB - Total(PoolTotal, o, s.vms) + 1 + if HasCountable(vm.disks) then 0 else vm.diskGB;
    assert SumMap(map[]) == 0;
    BilledSum(vm, pool, gb);
    GoodStep(s, Attach(vm.id, pool, gb), o);
  }

  /** So can a creation over an existing disk that declares little, */
  lemma CreateOverCanLeave(s: Sys, a: Action, o: string)
    requires SaneSys(s) && Good(s, o) && s.users[o].limits.diskGB > 0
    requires a.CreateOver? && a.owner == o && MayCreate(s, a)
    ensures exists gb :: gb > 0 && !Good(Do(s, a.(realGB := gb)), o)
  {
    var gb := s.users[o].limits.diskGB - Total(PoolTotal, o, s.vms) + 1;
    assert SumMap(map[]) == 0;
    SumSingle(a.pool, gb);
    GoodStep(s, a.(realGB := gb), o);
  }

  /** and a resize by an admin. */
  lemma AdminResizeCanLeave(s: Sys, i: nat, o: string)
    requires SaneSys(s) && Good(s, o) && s.users[o].limits.vcpus > 0
    requires i < |s.vms| && i == IndexOf(s.vms, s.vms[i].id) && s.vms[i].owner == o
    ensures exists v :: v > s.vms[i].vcpus && !Good(Do(s, AdminResize(s.vms[i].id, v, s.vms[i].ramMB)), o)
  {
    var vm := s.vms[i];
    var v := vm.vcpus + s.users[o].limits.vcpus - Total(VCPUs, o, s.vms) + 1;
    GoodStep(s, AdminResize(vm.id, v, vm.ramMB), o);
  }

  // ---- the global disk figure ----

  /** Within the pooled limits, the global figure passes its cap by at most what exceptional VMs keep
      off the pools. */
  lemma GlobalViewBounded(s: Sys, o: string)
    requires Good(s, o)
    ensures var q := s.users[o].limits;
            q.diskGB > 0 ==> Total(DiskTotal, o, s.vms) <= q.diskGB + Total(Unlisted, o, s.vms)
  {
    DiskConserved(o, s.vms);
    assert SumMap(map[]) == 0;
  }

  ghost predicate GlobalOk(s: Sys, o: string) {
    Limited(s, o) && Caps(s.users[o].limits.diskGB, Total(DiskTotal, o, s.vms))
  }

  /** The steps that bring a disk to be billed beside the check of the global figure. */
  predicate Brings(a: Action) {
    a.AddDisk? || a.Attach? || a.CreateOver?
  }

  lemma GlobalNoGrowth(vms: seq<VM>, a: Action, i: nat, o: string)
    requires i < |vms| && SaneVM(vms[i])
    ensures Total(DiskTotal, o, vms[..i] + vms[i + 1..]) <= Total(DiskTotal, o, vms)
    ensures Changes(a) && !Brings(a) ==> Total(DiskTotal, o, vms[i := Changed(a, vms[i])]) == Total(DiskTotal, o, vms)
  {
    TotalRemove(DiskTotal, o, vms, i);
    WeightNonNegative(DiskTotal, vms[i]);
    if Changes(a) { TotalReplace(DiskTotal, o, vms, i, Changed(a, vms[i])); }
  }

  lemma GlobalCreate(s: Sys, a: Action, o: string)
    requires GlobalOk(s, o) && a.Create? && MayCreate(s, a)
    ensures GlobalOk(s.(vms := s.vms + [NewVM(a)]), o)
  {
    NewWeights(a);
    TotalSnoc(DiskTotal, o, s.vms, NewVM(a));
    if a.owner == o { ChecksAreBounds(s, o, Usage(1, a.vcpus, a.ramMB, a.sizeGB), map[]); }
  }

  lemma GlobalOnVM(s: Sys, a: Action, o: string)
    requires SaneSys(s) && !Adds(a) && !a.SetLimits? && !Brings(a)
    ensures Total(DiskTotal, o, Do(s, a).vms) <= Total(DiskTotal, o, s.vms)
  {
    var i := IndexOf(s.vms, a.id);
    if i < |s.vms| { GlobalNoGrowth(s.vms, a, i, o); }
  }

  lemma GlobalStep(s: Sys, a: Action, o: string)
    requires SaneSys(s) && GlobalOk(s, o) && !(a.SetLimits? && a.user == o) && !Brings(a)
    ensures GlobalOk(Do(s, a), o)
  {
    StillLimited(s, a, o);
    if a.Create? {
      if MayCreate(s, a) { GlobalCreate(s, a, o); }
    } else if a.SetLimits? {
      assert Do(s, a).vms == s.vms;
    } else {
      GlobalOnVM(s, a, o);
    }
  }

  /** Without disks being brought in the global figure stays under the global cap, exceptional VMs or not. */
  lemma {:induction false} RunKeepsGlobal(s: Sys, actions: seq<Action>, o: string)
    requires SaneSys(s) && KeepsLimits(actions, o) && GlobalOk(s, o) && forall a | a in actions :: !Brings(a)
    ensures GlobalOk(Run(s, actions), o)
    decreases |actions|
  {
    if actions != [] {
      assert actions[0] in actions && forall a | a in actions[1..] :: a in actions;
      SaneStep(s, actions[0]);
      GlobalStep(s, actions[0], o);
      RunKeepsGlobal(Do(s, actions[0]), actions[1..], o);
    }
  }

  predicate EmptyAttach(a: Action) {
    a.Attach? && a.sizeGB <= 0
  }

  lemma UnlistedOnVM(vms: seq<VM>, a: Action, i: nat, o: string)
    requires i < |vms| && SaneVM(vms[i]) && SaneAction(a) && Changes(a) && !EmptyAttach(a) && (a.AddDisk? ==> a.sizeGB > 0)
    ensures Total(Unlisted, o, vms[i := Changed(a, vms[i])]) <= Total(Unlisted, o, vms)
  {
    TotalReplace(Unlisted, o, vms, i, Changed(a, vms[i]));
    if a.AddDisk? || a.Attach? {
      WithDiskPools(vms[i], a.pool, a.sizeGB);
      PoolsNonNegative(vms[i].disks, "");
    }
  }

  lemma UnlistedDelete(vms: seq<VM>, i: nat, o: string)
    requires i < |vms| && SaneVM(vms[i])
    ensures Total(Unlisted, o, vms[..i] + vms[i + 1..]) <= Total(Unlisted, o, vms)
  {
    TotalRemove(Unlisted, o, vms, i);
  }

  /** Only attaching an empty disk can make a VM exceptional. */
  lemma UnlistedStep(s: Sys, a: Action, o: string)
    requires SaneSys(s) && SaneAction(a) && !EmptyAttach(a)
    ensures Total(Unlisted, o, Do(s, a).vms) <= Total(Unlisted, o, s.vms)
  {
    if Adds(a) {
      NewWeights(a);
      TotalSnoc(Unlisted, o, s.vms, NewVM(a));
    } else if !a.SetLimits? {
      var i := IndexOf(s.vms, a.id);
      if i < |s.vms| {
        if a.Delete? {
          UnlistedDelete(s.vms, i, o);
        } else if MayChange(s, a, s.vms[i]) {
          UnlistedOnVM(s.vms, a, i, o);
        }
      }
    }
  }

  lemma {:induction false} UnlistedRun(s: Sys, actions: seq<Action>, o: string)
    requires SaneSys(s) && forall a | a in actions :: SaneAction(a) && !EmptyAttach(a)
    ensures Total(Unlisted, o, Run(s, actions).vms) <= Total(Unlisted, o, s.vms)
    decreases |actions|
  {
    if actions != [] {
      assert actions[0] in actions && forall a | a in actions[1..] :: a in actions;
      SaneStep(s, actions[0]);
      UnlistedStep(s, actions[0], o);
      UnlistedRun(Do(s, actions[0]), actions[1..], o);
    }
  }

  /** From a state without exceptional VMs no run that stays within the limits passes the global cap. */
  lemma GlobalFollows(s: Sys, actions: seq<Action>, o: string)
    requires SaneSys(s) && KeepsLimits(actions, o) && Good(s, o) && FitsThroughout(s, actions, o)
    requires Total(Unlisted, o, s.vms) <= 0 && forall a | a in actions :: !EmptyAttach(a)
    ensures GlobalOk(Run(s, actions), o)
  {
    RunStaysWithin(s, actions, o);
    GoodAtTheEnd(s, actions, o);
    UnlistedRun(s, actions, o);
    GlobalViewBounded(Run(s, actions), o);
  }

  /** What a new disk makes the global figure drop: the legacy figure, where it was in use. */
  function Dropped(vm: VM): int {
    if CountableSum(vm.disks) == 0 then vm.diskGB else 0
  }

  /** The largest disk that is admitted. */
  ghost function Room(q: Limits, vms: seq<VM>, pool: string, o: string): int {
    var r := q.diskGB - Total(PoolTotal, o, vms);
    if pool in q.pools && q.pools[pool] > 0 && q.pools[pool] - Total(InPool(pool), o, vms) < r
    then q.pools[pool] - Total(InPool(pool), o, vms)
    else r
  }

  lemma AdmittedExactly(s: Sys, i: nat, pool: string, gb: int, o: string)
    requires i < |s.vms| && s.vms[i].owner == o && Good(s, o) && s.users[o].limits.diskGB > 0
    ensures MayAddDisk(s, s.vms[i], pool, gb) <==> 0 < gb <= Room(s.users[o].limits, s.vms, pool, o)
  {
    var q := s.users[o].limits;
    ChecksAreBounds(s, o, Usage(0, 0, 0, 0), map[pool := gb]);
    SumSingle(pool, gb);
    if 0 < gb <= Room(q, s.vms, pool, o) {
      forall p | p in q.pools ensures Caps(q.pools[p], Total(InPool(p), o, s.vms) + At(map[pool := gb], p)) {
        assert Caps(q.pools[p], Total(InPool(p), o, s.vms) + At(map[], p));
      }
    }
  }

  lemma AddedToVM(vm: VM, pool: string, gb: int)
    requires SaneVM(vm) && gb > 0
    ensures TotalDisk(WithDisk(vm, pool, gb)) == TotalDisk(vm) + gb - Dropped(vm)
  {
    WithDiskPools(vm, pool, gb);
    PoolsNonNegative(vm.disks, "");
  }

  lemma AddedGlobal(vms: seq<VM>, i: nat, pool: string, gb: int)
    requires i < |vms| && SaneVM(vms[i]) && gb > 0
    ensures var o := vms[i].owner;
            Total(DiskTotal, o, vms[i := WithDisk(vms[i], pool, gb)]) == Total(DiskTotal, o, vms) + gb - Dropped(vms[i])
  {
    var vm' := WithDisk(vms[i], pool, gb);
    AddedToVM(vms[i], pool, gb);
    TotalReplace(DiskTotal, vms[i].owner, vms, i, vm');
    assert Share(DiskTotal, vms[i].owner, vm') == TotalDisk(vm');
  }

  ghost function AfterDisk(s: Sys, i: nat, pool: string, gb: int): Sys
    requires i < |s.vms|
  {
    Do(s, AddDisk(s.vms[i].id, pool, gb))
  }

  lemma AfterDiskOk(s: Sys, i: nat, pool: string, gb: int, o: string)
    requires SaneSys(s) && Good(s, o) && i < |s.vms| && i == IndexOf(s.vms, s.vms[i].id) && s.vms[i].owner == o
    requires MayAddDisk(s, s.vms[i], pool, gb)
    ensures GlobalOk(AfterDisk(s, i, pool, gb), o) <==>
              Caps(s.users[o].limits.diskGB, Total(PoolTotal, o, s.vms) + Total(Unlisted, o, s.vms) - Dropped(s.vms[i]) + gb)
  {
    AddedGlobal(s.vms, i, pool, gb);
    DiskConserved(o, s.vms);
  }

  /** The gap between the two views, exactly: every disk the check admits for a VM and a pool keeps the
      global figure under its cap if and only if there is no cap, no room, or what the owner's other
      exceptional VMs keep off the pools still fits above the room. */
  lemma AddDiskGlobalExactly(s: Sys, i: nat, pool: string, o: string)
    requires SaneSys(s) && Good(s, o) && i < |s.vms| && i == IndexOf(s.vms, s.vms[i].id) && s.vms[i].owner == o
    ensures var q := s.users[o].limits;
            var room := Room(q, s.vms, pool, o);
            (forall gb | MayAddDisk(s, s.vms[i], pool, gb) :: GlobalOk(AfterDisk(s, i, pool, gb), o)) <==>
              q.diskGB <= 0 || room <= 0 ||
              Total(PoolTotal, o, s.vms) + room + (Total(Unlisted, o, s.vms) - Dropped(s.vms[i])) <= q.diskGB
  {
    var q := s.users[o].limits;
    var room := Room(q, s.vms, pool, o);
    forall gb | MayAddDisk(s, s.vms[i], pool, gb)
      ensures GlobalOk(AfterDisk(s, i, pool, gb), o) <==>
                Caps(q.diskGB, Total(PoolTotal, o, s.vms) + Total(Unlisted, o, s.vms) - Dropped(s.vms[i]) + gb)
      ensures q.diskGB > 0 ==> gb <= room
    {
      AfterDiskOk(s, i, pool, gb, o);
      if q.diskGB > 0 { AdmittedExactly(s, i, pool, gb, o); }
    }
    if q.diskGB > 0 && room > 0 {
      AdmittedExactly(s, i, pool, room, o);
      AfterDiskOk(s, i, pool, room, o);
    }
  }

  /** So with room under the pooled cap, an exceptional VM and another VM that has disks: a disk that
      fills the room is admitted, keeps every limit the checks know, and passes the global cap. */
  lemma GlobalCapPassed(s: Sys, i: nat, pool: string, o: string)
    requires SaneSys(s) && Good(s, o) && i < |s.vms| && i == IndexOf(s.vms, s.vms[i].id) && s.vms[i].owner == o
    requires s.users[o].limits.diskGB > 0 && Total(PoolTotal, o, s.vms) < s.users[o].limits.diskGB
    requires pool in s.users[o].limits.pools ==> s.users[o].limits.pools[pool] <= 0
    requires Total(Unlisted, o, s.vms) > Dropped(s.vms[i])
    ensures var q := s.users[o].limits;
            var s' := AfterDisk(s, i, pool, q.diskGB - Total(PoolTotal, o, s.vms));
            && Good(s', o) && !GlobalOk(s', o)
            && Total(DiskTotal, o, s'.vms) == q.diskGB + Total(Unlisted, o, s.vms) - Dropped(s.vms[i])
  {
    var gb := s.users[o].limits.diskGB - Total(PoolTotal, o, s.vms);
    AdmittedExactly(s, i, pool, gb, o);
    AddedGlobal(s.vms, i, pool, gb);
    DiskConserved(o, s.vms);
    GoodStep(s, AddDisk(s.vms[i].id, pool, gb), o);
  }

  // ---- power on ----

  lemma {:induction false} RunningAtMostOwned(o: string, vms: seq<VM>)
    requires forall i | 0 <= i < |vms| :: SaneVM(vms[i])
    ensures Total(RunVCPUs, o, vms) <= Total(VCPUs, o, vms) && Total(RunRAM, o, vms) <= Total(RAM, o, vms)
  {
    if vms != [] {
      var init := vms[..|vms| - 1];
      assert forall i | 0 <= i < |init| :: init[i] == vms[i];
      RunningAtMostOwned(o, init);
    }
  }

  ghost predicate RunsNoMore(o: string, vms: seq<VM>, vms': seq<VM>) {
    Total(RunVCPUs, o, vms') <= Total(RunVCPUs, o, vms) && Total(RunRAM, o, vms') <= Total(RunRAM, o, vms)
  }

  ghost predicate RunningBelow(s: Sys, s': Sys, o: string)
    requires o in s.users
  {
    && (Total(RunVCPUs, o, s'.vms) <= Total(RunVCPUs, o, s.vms) || Caps(s.users[o].limits.vcpus, Total(RunVCPUs, o, s'.vms)))
    && (Total(RunRAM, o, s'.vms) <= Total(RunRAM, o, s.vms) || Caps(s.users[o].limits.ramMB, Total(RunRAM, o, s'.vms)))
  }

  lemma ReplaceRunsNoMore(o: string, vms: seq<VM>, i: nat, vm: VM)
    requires i < |vms| && vm.owner == vms[i].owner
    requires vm.owner == o ==> Weight(RunVCPUs, vm) <= Weight(RunVCPUs, vms[i]) && Weight(RunRAM, vm) <= Weight(RunRAM, vms[i])
    ensures RunsNoMore(o, vms, vms[i := vm])
  {
    TotalReplace(RunVCPUs, o, vms, i, vm);
    TotalReplace(RunRAM, o, vms, i, vm);
  }

  lemma RemoveRunsNoMore(o: string, vms: seq<VM>, i: nat)
    requires i < |vms| && SaneVM(vms[i])
    ensures RunsNoMore(o, vms, vms[..i] + vms[i + 1..])
  {
    TotalRemove(RunVCPUs, o, vms, i);
    TotalRemove(RunRAM, o, vms, i);
  }

  lemma StartBelow(s: Sys, i: nat, o: string)
    requires SaneSys(s) && i < |s.vms| && i == IndexOf(s.vms, s.vms[i].id) && StartAdmits(HostOf(s), s.vms[i].id)
    requires Limited(s, o) && s.vms[i].owner == o
    ensures var vms' := s.vms[i := s.vms[i].(state := Running)];
            && Caps(s.users[o].limits.vcpus, Total(RunVCPUs, o, vms'))
            && Caps(s.users[o].limits.ramMB, Total(RunRAM, o, vms'))
  {
    var vm := s.vms[i];
    TotalWithout(RunVCPUs, o, s.vms, i);
    TotalWithout(RunRAM, o, s.vms, i);
    TotalReplace(RunVCPUs, o, s.vms, i, vm.(state := Running));
    TotalReplace(RunRAM, o, s.vms, i, vm.(state := Running));
  }

  lemma ResizeBelow(s: Sys, i: nat, v: int, r: int, o: string)
    requires SaneSys(s) && i < |s.vms| && v >= 0 && r >= 0 && MayResize(s, s.vms[i], v, r) && Limited(s, o)
    ensures RunningBelow(s, s.(vms := s.vms[i := s.vms[i].(vcpus := v, ramMB := r)]), o)
  {
    var vm := s.vms[i];
    var vm' := vm.(vcpus := v, ramMB := r);
    var vms' := s.vms[i := vm'];
    TotalReplace(RunVCPUs, o, s.vms, i, vm');
    TotalReplace(RunRAM, o, s.vms, i, vm');
    if vm.owner == o && (v > vm.vcpus || r > vm.ramMB) {
      ChecksAreBounds(s, o, Usage(0, Growth(vm.vcpus, v), Growth(vm.ramMB, r), 0), map[]);
      GrowthBounded(s.vms, i, vm', o);
      RunningAtMostOwned(o, vms');
    }
  }

  /** A resize by an admin leaves a running VM's owner below the limits, or no worse than before. */
  ghost predicate ResizeRuns(s: Sys, i: nat, v: int, r: int, o: string)
    requires Limited(s, o) && i < |s.vms|
  {
    var q, vm := s.users[o].limits, s.vms[i];
    vm.owner == o && Active(vm) ==>
      && (v <= vm.vcpus || Caps(q.vcpus, Total(RunVCPUs, o, s.vms) - vm.vcpus + v))
      && (r <= vm.ramMB || Caps(q.ramMB, Total(RunRAM, o, s.vms) - vm.ramMB + r))
  }

  lemma AdminResizeBelow(s: Sys, i: nat, v: int, r: int, o: string)
    requires i < |s.vms| && Limited(s, o)
    ensures RunningBelow(s, s.(vms := s.vms[i := s.vms[i].(vcpus := v, ramMB := r)]), o) <==> ResizeRuns(s, i, v, r, o)
  {
    var vm' := s.vms[i].(vcpus := v, ramMB := r);
    TotalReplace(RunVCPUs, o, s.vms, i, vm');
    TotalReplace(RunRAM, o, s.vms, i, vm');
  }

  ghost predicate Runs(s: Sys, a: Action, o: string)
    requires Limited(s, o)
  {
    a.AdminResize? ==> var i := IndexOf(s.vms, a.id); i < |s.vms| ==> ResizeRuns(s, i, a.vcpus, a.ramMB, o)
  }

  /** From any state at all, an owner over a lowered limit included: a step keeps the running vCPUs and
      RAM of a limited owner from passing the limit in force, unless it is an admin's resize of a VM
      that runs and does not fit. */
  lemma StepRunningBelow(s: Sys, a: Action, o: string)
    requires SaneSys(s) && SaneAction(a) && Limited(s, o)
    ensures RunningBelow(s, Do(s, a), o) <==> Runs(s, a, o)
  {
    if Adds(a) {
      if MayCreate(s, a) {
        TotalSnoc(RunVCPUs, o, s.vms, NewVM(a));
        TotalSnoc(RunRAM, o, s.vms, NewVM(a));
      }
    } else if !a.SetLimits? {
      OnVMBelow(s, a, o);
    }
  }

  lemma OnVMBelow(s: Sys, a: Action, o: string)
    requires SaneSys(s) && SaneAction(a) && Limited(s, o) && !Adds(a) && !a.SetLimits?
    ensures RunningBelow(s, Do(s, a), o) <==> Runs(s, a, o)
  {
    var i := IndexOf(s.vms, a.id);
    if i < |s.vms| {
      if a.Delete? {
        RemoveRunsNoMore(o, s.vms, i);
      } else if MayChange(s, a, s.vms[i]) {
        ChangeBelow(s, a, i, o);
      }
    }
  }

  lemma ChangeBelow(s: Sys, a: Action, i: nat, o: string)
    requires SaneSys(s) && SaneAction(a) && Limited(s, o)
    requires Changes(a) && i == IndexOf(s.vms, a.id) < |s.vms| && MayChange(s, a, s.vms[i])
    ensures RunningBelow(s, s.(vms := s.vms[i := Changed(a, s.vms[i])]), o) <==> Runs(s, a, o)
  {
    if a.Resize? {
      ResizeBelow(s, i, a.vcpus, a.ramMB, o);
    } else if a.AdminResize? {
      AdminResizeBelow(s, i, a.vcpus, a.ramMB, o);
    } else if a.Start? && s.vms[i].owner == o {
      StartBelow(s, i, o);
    } else {
      SameSizeBelow(s, i, Changed(a, s.vms[i]), o);
    }
  }

  lemma SameSizeBelow(s: Sys, i: nat, vm: VM, o: string)
    requires i < |s.vms| && Limited(s, o) && SaneVM(s.vms[i]) && vm.owner == s.vms[i].owner
    requires vm.vcpus == s.vms[i].vcpus && vm.ramMB == s.vms[i].ramMB && (vm.owner == o && Active(vm) ==> Active(s.vms[i]))
    ensures RunningBelow(s, s.(vms := s.vms[i := vm]), o)
  {
    ReplaceRunsNoMore(o, s.vms, i, vm);
  }
}
