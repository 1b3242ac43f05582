/** The admission checks: which requests an owner's quota lets through. */
module QuotaChecks {
  import opened Wrappers
  import opened Quota

  predicate Enabled(q: Limits) {
    q.vms > 0 || q.vcpus > 0 || q.ramMB > 0 || q.diskGB > 0 || q.pools != map[]
  }

  predicate Caps(limit: int, used: int) {
    limit > 0 ==> used <= limit
  }

  // ---- disk ----

  ghost predicate DiskOk(q: Limits, cur: map<string, int>, add: map<string, int>) {
    && Caps(q.diskGB, SumMap(cur) + SumMap(add))
    && (forall p | p in q.pools :: Caps(q.pools[p], At(cur, p) + At(add, p)))
  }

  method SumValues(m: map<string, int>) returns (total: int)
    ensures total == SumMap(m)
  {
    total := 0;
    var todo := m.Keys;
    while todo != {}
      invariant todo <= m.Keys && total + SumOver(m, todo) == SumMap(m)
      decreases todo
    {
      var k :| k in todo;
      SumOverWithout(m, todo, k);
      total := total + m[k];
      todo := todo - {k};
    }
  }

  method EnforceDiskQuota(q: Limits, cur: map<string, int>, add: map<string, int>) returns (ok: bool)
    ensures ok <==> DiskOk(q, cur, add)
  {
    if q.diskGB > 0 {
      var curTotal := SumValues(cur);
      var addTotal := SumValues(add);
      if curTotal + addTotal > q.diskGB { return false; }
    }
    var todo := q.pools.Keys;
    while todo != {}
      invariant todo <= q.pools.Keys
      invariant forall p | p in q.pools && p !in todo :: Caps(q.pools[p], At(cur, p) + At(add, p))
      decreases todo
    {
      var p :| p in todo;
      todo := todo - {p};
      if q.pools[p] <= 0 { continue; }
      if At(cur, p) + At(add, p) > q.pools[p] { return false; }
    }
    return true;
  }

  ghost predicate NonPositive(add: map<string, int>) {
    forall p :: At(add, p) <= 0
  }

  lemma {:induction false} SumNonPositive(m: map<string, int>, ks: set<string>)
    requires NonPositive(m)
    ensures SumOver(m, ks) <= 0
  {
    if ks != {} {
      var k :| k in ks && SumOver(m, ks) == At(m, k) + SumOver(m, ks - {k});
      SumNonPositive(m, ks - {k});
    }
  }

  /** Every non-positive delta is admitted exactly when the usage itself is within the limits. */
  lemma ShrinkAdmittedExactly(q: Limits, cur: map<string, int>)
    ensures (forall add | NonPositive(add) :: DiskOk(q, cur, add)) <==> DiskOk(q, cur, map[])
  {
    assert NonPositive(map[]);
    if DiskOk(q, cur, map[]) {
      forall add | NonPositive(add) ensures DiskOk(q, cur, add) {
        SumNonPositive(add, add.Keys);
        forall p | p in q.pools ensures Caps(q.pools[p], At(cur, p) + At(add, p)) {
          assert Caps(q.pools[p], At(cur, p) + At(map[], p));
        }
      }
    }
  }

  function VMsOf(h: Host): seq<VM> {
    if h.compute.Live? then h.compute.vms else []
  }

  ghost predicate DiskWithin(q: Limits, vms: seq<VM>, owner: string, add: map<string, int>) {
    && Caps(q.diskGB, Total(PoolTotal, owner, vms) + SumMap(add))
    && (forall p | p in q.pools :: Caps(q.pools[p], Total(InPool(p), owner, vms) + At(add, p)))
  }

  /** Who is checked at all: nobody without a user store, without an owner, or as an admin; an owner
      whose record cannot be read is refused. */
  predicate Exempt(h: Host, user: string) {
    h.store.None? || user == "" || (user in h.store.value && h.store.value[user].admin)
  }

  predicate Known(h: Host, user: string) {
    h.store.Some? && user in h.store.value
  }

  ghost predicate DiskAdmits(h: Host, user: string, add: map<string, int>) {
    Exempt(h, user) ||
    (Known(h, user) &&
     var q := h.store.value[user].limits;
     !Enabled(q) || (!h.compute.Failing? && DiskWithin(q, VMsOf(h), user, add)))
  }

  method CheckDiskQuota(h: Host, user: string, add: map<string, int>) returns (ok: bool)
    ensures ok <==> DiskAdmits(h, user, add)
  {
    if h.store.None? || user == "" { return true; }
    if user !in h.store.value { return false; }
    var u := h.store.value[user];
    if u.admin || !Enabled(u.limits) { return true; }
    if h.compute.Failing? { return false; }
    var cur := DiskUsageByPool(VMsOf(h), user);
    ok := EnforceDiskQuota(u.limits, cur, add);
  }

  // ---- real volume sizes ----

  const GB := 0x4000_0000

  /** Always enough, and one more than the rounded-up figure exactly at multiples of a gigabyte. */
  function BytesToGB(n: int): (r: int)
    ensures n > 0 ==> n < r * GB <= n + GB
    ensures n > 0 ==> (n <= (r - 1) * GB <==> n % GB == 0)
    ensures r >= 0 && (r == 0 <==> n <= 0)
  {
    if n <= 0 then 0 else n / GB + 1
  }

  datatype Volume = Volume(used: int, capacity: int)

  function RealSize(v: Volume): int {
    BytesToGB(if v.used <= 0 then v.capacity else v.used)
  }

  ghost predicate RecheckAdmits(h: Host, owner: string, pool: string, v: Option<Volume>) {
    Exempt(h, owner) ||
    (Known(h, owner) &&
     var q := h.store.value[owner].limits;
     !Enabled(q) ||
     (v.Some? && h.compute.Live? && DiskWithin(q, h.compute.vms, owner, map[pool := RealSize(v.value)])))
  }

  method RecheckDiskQuota(h: Host, owner: string, pool: string, v: Option<Volume>) returns (ok: bool)
    ensures ok <==> RecheckAdmits(h, owner, pool, v)
  {
    if h.store.None? || owner == "" { return true; }
    if owner !in h.store.value { return false; }
    var u := h.store.value[owner];
    if u.admin || !Enabled(u.limits) { return true; }
    if v.None? || !h.compute.Live? { return false; }
    var cur := DiskUsageByPool(VMsOf(h), owner);
    ok := EnforceDiskQuota(u.limits, cur, map[pool := RealSize(v.value)]);
  }

  // ---- all dimensions ----

  ghost predicate UsageWithin(q: Limits, vms: seq<VM>, owner: string, add: Usage) {
    && Caps(q.vms, Total(Count, owner, vms) + add.vms)
    && Caps(q.vcpus, Total(VCPUs, owner, vms) + add.vcpus)
    && Caps(q.ramMB, Total(RAM, owner, vms) + add.ramMB)
    && Caps(q.diskGB, Total(DiskTotal, owner, vms) + add.diskGB)
  }

  ghost predicate Admits(h: Host, user: string, add: Usage) {
    Exempt(h, user) ||
    (Known(h, user) &&
     var q := h.store.value[user].limits;
     !Enabled(q) || (!h.compute.Failing? && UsageWithin(q, VMsOf(h), user, add)))
  }

  method CheckQuota(h: Host, user: string, add: Usage) returns (ok: bool)
    ensures ok <==> Admits(h, user, add)
  {
    if h.store.None? || user == "" { return true; }
    if user !in h.store.value { return false; }
    var u := h.store.value[user];
    if u.admin || !Enabled(u.limits) { return true; }
    if h.compute.Failing? { return false; }
    var q, cur := u.limits, Usage(0, 0, 0, 0);
    cur := UsageOfOwner(VMsOf(h), user);
    if q.vms > 0 && cur.vms + add.vms > q.vms { return false; }
    if q.vcpus > 0 && cur.vcpus + add.vcpus > q.vcpus { return false; }
    if q.ramMB > 0 && cur.ramMB + add.ramMB > q.ramMB { return false; }
    if q.diskGB > 0 && cur.diskGB + add.diskGB > q.diskGB { return false; }
    return true;
  }

  // ---- power on ----

  function IndexOf(vms: seq<VM>, id: string): (i: nat)
    ensures i <= |vms| && (i < |vms| ==> vms[i].id == id) && forall j | 0 <= j < i :: vms[j].id != id
  {
    if vms == [] || vms[0].id == id then 0 else 1 + IndexOf(vms[1..], id)
  }

  predicate EnforceStartQuota(q: Limits, runVCPUs: int, runRAM: int, vcpus: int, ramMB: int) {
    Caps(q.vcpus, runVCPUs + vcpus) && Caps(q.ramMB, runRAM + ramMB)
  }

  ghost predicate StartAdmits(h: Host, id: string) {
    !h.compute.Live? ||
    var vms := h.compute.vms;
    var i := IndexOf(vms, id);
    i == |vms| ||
    (!vms[i].template &&
     (Exempt(h, vms[i].owner) ||
      (Known(h, vms[i].owner) &&
       var q := h.store.value[vms[i].owner].limits;
       var o := vms[i].owner;
       !Enabled(q) ||
       (&& EnforceStartQuota(q, Total(RunVCPUs, o, Without(vms, id)), Total(RunRAM, o, Without(vms, id)), vms[i].vcpus, vms[i].ramMB)
        && DiskWithin(q, vms, o, map[])))))
  }

  method CheckStartQuota(h: Host, id: string) returns (ok: bool)
    ensures ok <==> StartAdmits(h, id)
  {
    if !h.compute.Live? { return true; }
    var vms := h.compute.vms;
    var i := IndexOf(vms, id);
    if i == |vms| { return true; }
    var vm := vms[i];
    if vm.template { return false; }
    if vm.owner == "" || h.store.None? { return true; }
    if vm.owner !in h.store.value { return false; }
    var u := h.store.value[vm.owner];
    if u.admin || !Enabled(u.limits) { return true; }
    var runVCPUs, runRAM := RunningUsageOf(vms, vm.owner, id);
    if !EnforceStartQuota(u.limits, runVCPUs, runRAM, vm.vcpus, vm.ramMB) { return false; }
    ok := CheckDiskQuota(h, vm.owner, map[]);
  }
}
