/** Quota accounting and admission: what an owner uses, in total and pool by pool, and the checks made
  before resources are added or a VM is started. */
module Quota {
  import opened Wrappers

  datatype Disk = Disk(device: string, readOnly: bool, kind: string, blockDev: string, zvol: string, pool: string, sizeGB: int)

  datatype VMState = Running | Shutoff | Paused | Crashed | Unknown

  datatype VM = VM(id: string, owner: string, template: bool, state: VMState, vcpus: int, ramMB: int, diskGB: int, disks: seq<Disk>)

  /** A limit that is not positive is no limit. */
  datatype Limits = Limits(vms: int, vcpus: int, ramMB: int, diskGB: int, pools: map<string, int>)

  datatype User = User(admin: bool, limits: Limits)

  datatype Usage = Usage(vms: int, vcpus: int, ramMB: int, diskGB: int)

  /** The compute connector: not configured, failing to list, or listing these VMs. */
  datatype Compute = Absent | Failing | Live(vms: seq<VM>)

  datatype Host = Host(store: Option<map<string, User>>, compute: Compute)

  // ---- sums over maps ----

  function At(m: map<string, int>, k: string): int {
    if k in m then m[k] else 0
  }

  function Bump(m: map<string, int>, k: string, v: int): map<string, int> {
    m[k := At(m, k) + v]
  }

  ghost function SumOver(m: map<string, int>, ks: set<string>): int {
    if ks == {} then 0
    else
      var k :| k in ks;
      At(m, k) + SumOver(m, ks - {k})
  }

  ghost function SumMap(m: map<string, int>): int {
    SumOver(m, m.Keys)
  }

  lemma {:induction false} SumOverWithout(m: map<string, int>, ks: set<string>, k: string)
    requires k in ks
    ensures SumOver(m, ks) == At(m, k) + SumOver(m, ks - {k})
  {
    var j :| j in ks && SumOver(m, ks) == At(m, j) + SumOver(m, ks - {j});
    if j != k {
      SumOverWithout(m, ks - {j}, k);
      SumOverWithout(m, ks - {k}, j);
      assert ks - {j} - {k} == ks - {k} - {j};
    }
  }

  lemma {:induction false} SumOverAgrees(m: map<string, int>, m': map<string, int>, ks: set<string>)
    requires forall k | k in ks :: At(m, k) == At(m', k)
    ensures SumOver(m, ks) == SumOver(m', ks)
  {
    if ks != {} {
      var k :| k in ks && SumOver(m, ks) == At(m, k) + SumOver(m, ks - {k});
      SumOverAgrees(m, m', ks - {k});
      SumOverWithout(m', ks, k);
    }
  }

  lemma SumBump(m: map<string, int>, k: string, v: int)
    ensures SumMap(Bump(m, k, v)) == SumMap(m) + v
  {
    var b := Bump(m, k, v);
    SumOverWithout(b, b.Keys, k);
    SumOverAgrees(b, m, b.Keys - {k});
    if k in m {
      SumOverWithout(m, m.Keys, k);
      assert b.Keys == m.Keys;
    } else {
      assert b.Keys - {k} == m.Keys;
    }
  }

  lemma SumSingle(k: string, v: int)
    ensures SumMap(map[k := v]) == v
  {
    var m: map<string, int> := map[];
    SumBump(m, k, v);
    assert Bump(m, k, v) == map[k := v];
    assert SumMap(m) == 0;
  }

  // ---- one VM ----

  predicate CountsAgainstQuota(d: Disk) {
    d.device != "cdrom" && !d.readOnly && d.kind != "block" && d.blockDev == "" && d.zvol == ""
  }

  function CountableSum(disks: seq<Disk>): int {
    if disks == [] then 0
    else
      var last := disks[|disks| - 1];
      CountableSum(disks[..|disks| - 1]) + if CountsAgainstQuota(last) then last.sizeGB else 0
  }

  predicate HasCountable(disks: seq<Disk>) {
    exists i :: 0 <= i < |disks| && CountsAgainstQuota(disks[i])
  }

  function PoolsOf(disks: seq<Disk>): map<string, int> {
    if disks == [] then map[]
    else
      var last, m := disks[|disks| - 1], PoolsOf(disks[..|disks| - 1]);
      if CountsAgainstQuota(last) then Bump(m, last.pool, last.sizeGB) else m
  }

  function TotalDisk(vm: VM): int {
    if CountableSum(vm.disks) == 0 then vm.diskGB else CountableSum(vm.disks)
  }

  function ByPool(vm: VM): map<string, int> {
    if HasCountable(vm.disks) then PoolsOf(vm.disks) else map["" := vm.diskGB]
  }

  /** Countable disks of total size 0, and another figure in the legacy field. */
  predicate Exceptional(vm: VM) {
    HasCountable(vm.disks) && CountableSum(vm.disks) == 0 && vm.diskGB != 0
  }

  lemma {:induction false} PoolsSum(disks: seq<Disk>)
    ensures SumMap(PoolsOf(disks)) == CountableSum(disks)
    ensures !HasCountable(disks) ==> CountableSum(disks) == 0
  {
    if disks != [] {
      var init, last := disks[..|disks| - 1], disks[|disks| - 1];
      PoolsSum(init);
      if CountsAgainstQuota(last) { SumBump(PoolsOf(init), last.pool, last.sizeGB); }
      if !HasCountable(disks) {
        forall i | 0 <= i < |init| ensures !CountsAgainstQuota(init[i]) { assert init[i] == disks[i]; }
      }
    }
  }

  /** The two views of one VM's disks agree exactly when it is not exceptional. */
  lemma ViewsAgree(vm: VM)
    ensures SumMap(ByPool(vm)) == TotalDisk(vm) - if Exceptional(vm) then vm.diskGB else 0
    ensures SumMap(ByPool(vm)) == TotalDisk(vm) <==> !Exceptional(vm)
  {
    PoolsSum(vm.disks);
    SumSingle("", vm.diskGB);
  }

  method VMTotalDiskGB(vm: VM) returns (total: int)
    ensures total == TotalDisk(vm)
  {
    total := 0;
    for i := 0 to |vm.disks|
      invariant total == CountableSum(vm.disks[..i])
    {
      assert vm.disks[..i + 1][..i] == vm.disks[..i];
      if !CountsAgainstQuota(vm.disks[i]) { continue; }
      total := total + vm.disks[i].sizeGB;
    }
    assert vm.disks[..|vm.disks|] == vm.disks;
    if total == 0 { return vm.diskGB; }
  }

  method VMTotalDiskByPool(vm: VM) returns (m: map<string, int>)
    ensures m == ByPool(vm)
  {
    m := map[];
    var seen := false;
    for i := 0 to |vm.disks|
      invariant m == PoolsOf(vm.disks[..i])
      invariant seen <==> HasCountable(vm.disks[..i])
    {
      assert vm.disks[..i + 1][..i] == vm.disks[..i];
      SeenSoFar(vm.disks, i);
      if !CountsAgainstQuota(vm.disks[i]) { continue; }
      m := Bump(m, vm.disks[i].pool, vm.disks[i].sizeGB);
      seen := true;
    }
    assert vm.disks[..|vm.disks|] == vm.disks;
    if !seen { m := map["" := vm.diskGB]; }
  }

  lemma SeenSoFar(disks: seq<Disk>, i: nat)
    requires i < |disks|
    ensures HasCountable(disks[..i + 1]) <==> HasCountable(disks[..i]) || CountsAgainstQuota(disks[i])
  {
    if HasCountable(disks[..i]) {
      var j :| 0 <= j < i && CountsAgainstQuota(disks[..i][j]);
      assert disks[..i + 1][j] == disks[..i][j];
    }
    if CountsAgainstQuota(disks[i]) { assert disks[..i + 1][i] == disks[i]; }
    if HasCountable(disks[..i + 1]) {
      var j :| 0 <= j < i + 1 && CountsAgainstQuota(disks[..i + 1][j]);
      if j < i { assert disks[..i][j] == disks[..i + 1][j]; }
    }
  }

  // ---- one owner ----

  /** What is summed over an owner's VMs. */
  datatype Measure = Count | VCPUs | RAM | DiskTotal | PoolTotal | InPool(pool: string) | Unlisted | RunVCPUs | RunRAM

  predicate Active(vm: VM) {
    vm.state == Running || vm.state == Paused || vm.state == Crashed
  }

  ghost function Weight(m: Measure, vm: VM): int {
    match m
    case Count => 1
    case VCPUs => vm.vcpus
    case RAM => vm.ramMB
    case DiskTotal => TotalDisk(vm)
    case PoolTotal => SumMap(ByPool(vm))
    case InPool(p) => At(ByPool(vm), p)
    case Unlisted => if Exceptional(vm) then vm.diskGB else 0
    case RunVCPUs => if Active(vm) then vm.vcpus else 0
    case RunRAM => if Active(vm) then vm.ramMB else 0
  }

  ghost function Total(m: Measure, owner: string, vms: seq<VM>): int {
    if vms == [] then 0
    else
      var last := vms[|vms| - 1];
      Total(m, owner, vms[..|vms| - 1]) + if last.owner == owner then Weight(m, last) else 0
  }

  ghost function UsageOf(vms: seq<VM>, owner: string): Usage {
    Usage(Total(Count, owner, vms), Total(VCPUs, owner, vms), Total(RAM, owner, vms), Total(DiskTotal, owner, vms))
  }

  /** Conservation: the global figure is the sum over the pools, plus the legacy figures of
      exceptional VMs. */
  lemma {:induction false} DiskConserved(owner: string, vms: seq<VM>)
    ensures Total(DiskTotal, owner, vms) == Total(PoolTotal, owner, vms) + Total(Unlisted, owner, vms)
  {
    if vms != [] {
      DiskConserved(owner, vms[..|vms| - 1]);
      ViewsAgree(vms[|vms| - 1]);
    }
  }

  /** `m` is the owner's usage pool by pool; its keys are the pools some VM of the owner is billed for. */
  ghost predicate IsPoolUsage(m: map<string, int>, vms: seq<VM>, owner: string) {
    && (forall p :: At(m, p) == Total(InPool(p), owner, vms))
    && SumMap(m) == Total(PoolTotal, owner, vms)
    && (forall p :: p in m <==> UsesPool(vms, owner, p))
  }

  ghost predicate UsesPool(vms: seq<VM>, owner: string, p: string) {
    exists i :: 0 <= i < |vms| && vms[i].owner == owner && p in ByPool(vms[i])
  }

  method UsageOfOwner(vms: seq<VM>, owner: string) returns (u: Usage)
    ensures u == UsageOf(vms, owner)
  {
    u := Usage(0, 0, 0, 0);
    for i := 0 to |vms|
      invariant u == UsageOf(vms[..i], owner)
    {
      assert vms[..i + 1][..i] == vms[..i];
      if vms[i].owner != owner { continue; }
      var d := VMTotalDiskGB(vms[i]);
      u := Usage(u.vms + 1, u.vcpus + vms[i].vcpus, u.ramMB + vms[i].ramMB, u.diskGB + d);
    }
    assert vms[..|vms|] == vms;
  }

  lemma UsesPoolSoFar(vms: seq<VM>, owner: string, i: nat, p: string)
    requires i < |vms|
    ensures UsesPool(vms[..i + 1], owner, p) <==> UsesPool(vms[..i], owner, p) || (vms[i].owner == owner && p in ByPool(vms[i]))
  {
    if UsesPool(vms[..i], owner, p) {
      var j :| 0 <= j < i && vms[..i][j].owner == owner && p in ByPool(vms[..i][j]);
      assert vms[..i + 1][j] == vms[..i][j];
    }
    if vms[i].owner == owner && p in ByPool(vms[i]) { assert vms[..i + 1][i] == vms[i]; }
    if UsesPool(vms[..i + 1], owner, p) {
      var j :| 0 <= j < i + 1 && vms[..i + 1][j].owner == owner && p in ByPool(vms[..i + 1][j]);
      if j < i { assert vms[..i][j] == vms[..i + 1][j]; }
    }
  }

  /** Adds every entry of `more` to `m`. */
  method AddAll(m: map<string, int>, more: map<string, int>) returns (r: map<string, int>)
    ensures forall p :: At(r, p) == At(m, p) + At(more, p)
    ensures SumMap(r) == SumMap(m) + SumMap(more) && r.Keys == m.Keys + more.Keys
  {
    r := m;
    var todo := more.Keys;
    while todo != {}
      invariant todo <= more.Keys && r.Keys == m.Keys + (more.Keys - todo)
      invariant forall p :: At(r, p) == At(m, p) + if p in todo then 0 else At(more, p)
      invariant SumMap(r) + SumOver(more, todo) == SumMap(m) + SumMap(more)
      decreases todo
    {
      var p :| p in todo;
      SumOverWithout(more, todo, p);
      SumBump(r, p, more[p]);
      r := Bump(r, p, more[p]);
      todo := todo - {p};
    }
  }

  method DiskUsageByPool(vms: seq<VM>, owner: string) returns (out: map<string, int>)
    ensures IsPoolUsage(out, vms, owner)
  {
    out := map[];
    for i := 0 to |vms|
      invariant IsPoolUsage(out, vms[..i], owner)
    {
      ghost var before := out;
      assert vms[..i + 1][..i] == vms[..i];
      if vms[i].owner == owner {
        var m := VMTotalDiskByPool(vms[i]);
        out := AddAll(out, m);
      }
      forall p ensures p in out <==> UsesPool(vms[..i + 1], owner, p) {
        UsesPoolSoFar(vms, owner, i, p);
        assert p in before <==> UsesPool(vms[..i], owner, p);
      }
      forall p ensures At(out, p) == Total(InPool(p), owner, vms[..i + 1]) {
        assert At(before, p) == Total(InPool(p), owner, vms[..i]);
      }
    }
    assert vms[..|vms|] == vms;
  }

  function Without(vms: seq<VM>, id: string): seq<VM> {
    if vms == [] then []
    else Without(vms[..|vms| - 1], id) + if vms[|vms| - 1].id == id then [] else [vms[|vms| - 1]]
  }

  lemma TotalSnoc(m: Measure, owner: string, vms: seq<VM>, vm: VM)
    ensures Total(m, owner, vms + [vm]) == Total(m, owner, vms) + if vm.owner == owner then Weight(m, vm) else 0
  {
    assert (vms + [vm])[..|vms|] == vms;
  }

  lemma WithoutStep(m: Measure, owner: string, vms: seq<VM>, exclude: string, i: nat)
    requires i < |vms|
    ensures Total(m, owner, Without(vms[..i + 1], exclude)) ==
              Total(m, owner, Without(vms[..i], exclude)) + if vms[i].id != exclude && vms[i].owner == owner then Weight(m, vms[i]) else 0
  {
    assert vms[..i + 1][..i] == vms[..i];
    if vms[i].id == exclude {
      assert Without(vms[..i + 1], exclude) == Without(vms[..i], exclude);
    } else {
      TotalSnoc(m, owner, Without(vms[..i], exclude), vms[i]);
    }
  }

  method RunningUsageOf(vms: seq<VM>, owner: string, exclude: string) returns (vcpus: int, ramMB: int)
    ensures vcpus == Total(RunVCPUs, owner, Without(vms, exclude))
    ensures ramMB == Total(RunRAM, owner, Without(vms, exclude))
  {
    vcpus, ramMB := 0, 0;
    for i := 0 to |vms|
      invariant vcpus == Total(RunVCPUs, owner, Without(vms[..i], exclude))
      invariant ramMB == Total(RunRAM, owner, Without(vms[..i], exclude))
    {
      WithoutStep(RunVCPUs, owner, vms, exclude, i);
      WithoutStep(RunRAM, owner, vms, exclude, i);
      if vms[i].id == exclude || vms[i].owner != owner { continue; }
      if Active(vms[i]) {
        vcpus, ramMB := vcpus + vms[i].vcpus, ramMB + vms[i].ramMB;
      }
    }
    assert vms[..|vms|] == vms;
  }
}
