/** The rules of the quota written out over the fields of disks, VMs and limits: which disks are
  billed, which VMs run, and exactly which requests each check lets through. */
module QuotaRules {
  import opened Wrappers
  import opened Quota
  import opened QuotaChecks
  import opened QuotaRuns

  // ---- which disks are billed ----

  function Plus(vm: VM, d: Disk): VM {
    vm.(disks := vm.disks + [d])
  }

  /** Install media, read-only images, block devices and zvols cost nothing, neither in total nor in
      any pool. */
  lemma MediaIsFree(vm: VM, d: Disk)
    requires d.device == "cdrom" || d.readOnly || d.kind == "block" || d.blockDev != "" || d.zvol != ""
    ensures TotalDisk(Plus(vm, d)) == TotalDisk(vm) && ByPool(Plus(vm, d)) == ByPool(vm)
  {
    var disks := vm.disks + [d];
    assert disks[..|disks| - 1] == vm.disks && disks[|disks| - 1] == d;
    if HasCountable(disks) {
      var i :| 0 <= i < |disks| && CountsAgainstQuota(disks[i]);
      assert vm.disks[i] == disks[i];
    }
    if HasCountable(vm.disks) {
      var i :| 0 <= i < |vm.disks| && CountsAgainstQuota(vm.disks[i]);
      assert disks[i] == vm.disks[i];
    }
  }

  /** Every other disk costs its size in its pool; the first one also drops the legacy figure. */
  lemma DiskIsBilled(vm: VM, d: Disk)
    requires d.device != "cdrom" && !d.readOnly && d.kind != "block" && d.blockDev == "" && d.zvol == ""
    ensures forall p :: At(ByPool(Plus(vm, d)), p) == At(ByPool(vm), p) + At(Billed(vm, d.pool, d.sizeGB), p)
    ensures SumMap(ByPool(Plus(vm, d))) == SumMap(ByPool(vm)) + SumMap(Billed(vm, d.pool, d.sizeGB))
    ensures TotalDisk(Plus(vm, d)) == var sum := CountableSum(vm.disks) + d.sizeGB; if sum == 0 then vm.diskGB else sum
  {
    var disks := vm.disks + [d];
    assert disks[..|disks| - 1] == vm.disks && disks[|disks| - 1] == d;
    assert CountsAgainstQuota(disks[|disks| - 1]) && HasCountable(disks);
    if !HasCountable(vm.disks) { NoCountableNoPools(vm.disks); }
    BilledSum(vm, d.pool, d.sizeGB);
    SumBump(PoolsOf(vm.disks), d.pool, d.sizeGB);
    SumSingle("", vm.diskGB);
    assert SumMap(map[]) == 0;
  }

  /** With no disk at all the legacy figure is the bill, in the pool without a name. */
  lemma NoDisksBilled(vm: VM)
    requires vm.disks == []
    ensures TotalDisk(vm) == vm.diskGB && ByPool(vm) == map["" := vm.diskGB]
  {
  }

  // ---- which VMs run ----

  /** Pausing or crashing a running VM frees none of its vCPUs and RAM; any other state frees all. */
  lemma PausedStillRuns(vms: seq<VM>, i: nat, o: string, st: VMState)
    requires i < |vms| && vms[i].state == Running && vms[i].owner == o
    ensures var vms' := vms[i := vms[i].(state := st)];
            var freed := !(st == Running || st == Paused || st == Crashed);
            && Total(RunVCPUs, o, vms') == Total(RunVCPUs, o, vms) - (if freed then vms[i].vcpus else 0)
            && Total(RunRAM, o, vms') == Total(RunRAM, o, vms) - (if freed then vms[i].ramMB else 0)
  {
    TotalReplace(RunVCPUs, o, vms, i, vms[i].(state := st));
    TotalReplace(RunRAM, o, vms, i, vms[i].(state := st));
  }

  // ---- what each check lets through ----

  predicate NoLimits(q: Limits) {
    q.vms <= 0 && q.vcpus <= 0 && q.ramMB <= 0 && q.diskGB <= 0 && q.pools.Keys == {}
  }

  /** A user is let through unchecked, refused for want of a record, or held to limits. */
  lemma AdmitsExactly(h: Host, user: string, add: Usage)
    ensures Admits(h, user, add) <==>
              || h.store.None? || user == ""
              || (user in h.store.value &&
                  var u := h.store.value[user];
                  var q, vms := u.limits, if h.compute.Live? then h.compute.vms else [];
                  || u.admin || NoLimits(q)
                  || (&& !h.compute.Failing?
                      && (q.vms > 0 ==> Total(Count, user, vms) + add.vms <= q.vms)
                      && (q.vcpus > 0 ==> Total(VCPUs, user, vms) + add.vcpus <= q.vcpus)
                      && (q.ramMB > 0 ==> Total(RAM, user, vms) + add.ramMB <= q.ramMB)
                      && (q.diskGB > 0 ==> Total(DiskTotal, user, vms) + add.diskGB <= q.diskGB)))
  {
    if h.store.Some? && user in h.store.value { EnabledExactly(h.store.value[user].limits); }
  }

  lemma EnabledExactly(q: Limits)
    ensures Enabled(q) <==> !NoLimits(q)
  {
    assert q.pools == map[] <==> q.pools.Keys == {};
  }

  /** The disk limits, in total over the pools and pool by pool. */
  ghost predicate FitsOnDisk(q: Limits, vms: seq<VM>, user: string, add: map<string, int>) {
    && (q.diskGB > 0 ==> Total(PoolTotal, user, vms) + SumMap(add) <= q.diskGB)
    && (forall p | p in q.pools && q.pools[p] > 0 :: Total(InPool(p), user, vms) + At(add, p) <= q.pools[p])
  }

  lemma FitsIsWithin(q: Limits, vms: seq<VM>, user: string, add: map<string, int>)
    ensures DiskWithin(q, vms, user, add) <==> FitsOnDisk(q, vms, user, add)
  {
    assert forall p | p in q.pools ::
        Caps(q.pools[p], Total(InPool(p), user, vms) + At(add, p))
        <==> (q.pools[p] > 0 ==> Total(InPool(p), user, vms) + At(add, p) <= q.pools[p]);
  }

  lemma DiskAdmitsExactly(h: Host, user: string, add: map<string, int>)
    ensures DiskAdmits(h, user, add) <==>
              || h.store.None? || user == ""
              || (user in h.store.value &&
                  var u := h.store.value[user];
                  || u.admin || NoLimits(u.limits)
                  || (!h.compute.Failing? && FitsOnDisk(u.limits, if h.compute.Live? then h.compute.vms else [], user, add)))
  {
    if h.store.Some? && user in h.store.value {
      var q := h.store.value[user].limits;
      EnabledExactly(q);
      FitsIsWithin(q, VMsOf(h), user, add);
    }
  }

  /** `gb` gigabytes, rounded up to the next whole one above. */
  predicate Gigabytes(bytes: int, gb: int) {
    if bytes <= 0 then gb == 0 else (gb - 1) * 0x4000_0000 <= bytes < gb * 0x4000_0000
  }

  lemma GigabytesUnique(bytes: int, gb: int)
    requires Gigabytes(bytes, gb)
    ensures BytesToGB(bytes) == gb
  {
  }

  /** The re-check counts the space the placed volume uses, and its capacity only while it uses none;
      a volume that cannot be read is refused to everybody who has a limit. */
  lemma RecheckExactly(h: Host, owner: string, pool: string, v: Option<Volume>, gb: int)
    requires v.Some? ==> Gigabytes(if v.value.used > 0 then v.value.used else v.value.capacity, gb)
    ensures RecheckAdmits(h, owner, pool, v) <==>
              || h.store.None? || owner == ""
              || (owner in h.store.value &&
                  var u := h.store.value[owner];
                  || u.admin || NoLimits(u.limits)
                  || (v.Some? && h.compute.Live? && FitsOnDisk(u.limits, h.compute.vms, owner, map[pool := gb])))
  {
    if h.store.Some? && owner in h.store.value {
      var q := h.store.value[owner].limits;
      EnabledExactly(q);
      if v.Some? && h.compute.Live? {
        GigabytesUnique(if v.value.used > 0 then v.value.used else v.value.capacity, gb);
        FitsIsWithin(q, h.compute.vms, owner, map[pool := gb]);
      }
    }
  }

  /** A start: never of a template; for a limited owner, within the running limits with every other VM
      of the owner that runs, and only while the owner's disks are within theirs. */
  lemma StartExactly(h: Host, i: nat)
    requires h.compute.Live? && i < |h.compute.vms|
    requires forall k | 0 <= k < i :: h.compute.vms[k].id != h.compute.vms[i].id
    ensures var vms := h.compute.vms;
            var vm := vms[i];
            StartAdmits(h, vm.id) <==>
              !vm.template &&
              (|| vm.owner == "" || h.store.None?
               || (vm.owner in h.store.value &&
                   var u := h.store.value[vm.owner];
                   var q, others := u.limits, Without(vms, vm.id);
                   || u.admin || NoLimits(q)
                   || (&& (q.vcpus > 0 ==> Total(RunVCPUs, vm.owner, others) + vm.vcpus <= q.vcpus)
                       && (q.ramMB > 0 ==> Total(RunRAM, vm.owner, others) + vm.ramMB <= q.ramMB)
                       && FitsOnDisk(q, vms, vm.owner, map[]))))
  {
    var vm := h.compute.vms[i];
    assert IndexOf(h.compute.vms, vm.id) == i;
    if h.store.Some? && vm.owner in h.store.value {
      EnabledExactly(h.store.value[vm.owner].limits);
      FitsIsWithin(h.store.value[vm.owner].limits, h.compute.vms, vm.owner, map[]);
    }
  }

  /** Only a VM that can be looked up is refused: everything else is left to libvirt. */
  lemma RefusedStartIsKnown(h: Host, id: string)
    requires !StartAdmits(h, id)
    ensures h.compute.Live? && exists vm :: vm in h.compute.vms && vm.id == id
  {
    var i := IndexOf(h.compute.vms, id);
    assert h.compute.vms[i] in h.compute.vms;
  }
}
