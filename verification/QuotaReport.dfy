/** The usage report: one row per pool that is used or capped, sorted by pool name. */
module QuotaReport {
  import opened Wrappers
  import opened Quota
  import opened QuotaChecks

  datatype Row = Row(pool: string, used: int, limit: int)

  /** The byte-wise order of strings. */
  predicate Before(a: string, b: string) {
    if b == [] then false
    else if a == [] then true
    else a[0] < b[0] || (a[0] == b[0] && Before(a[1..], b[1..]))
  }

  /** `a` and `b` agree up to `k`, where `a` ends or has the smaller character. */
  ghost predicate DiffersAt(a: string, b: string, k: nat) {
    k <= |a| && k < |b| && a[..k] == b[..k] && (k == |a| || a[k] < b[k])
  }

  lemma {:induction false} BeforeExactly(a: string, b: string)
    ensures Before(a, b) <==> exists k: nat :: DiffersAt(a, b, k)
  {
    forall k: nat | 0 < k <= |a| && k <= |b| && a[..k] == b[..k] ensures a[0] == b[0] {
      assert a[..k][0] == a[0] && b[..k][0] == b[0];
    }
    if b != [] && a == [] {
      assert DiffersAt(a, b, 0);
    } else if b != [] && a[0] == b[0] {
      BeforeExactly(a[1..], b[1..]);
      if k: nat :| DiffersAt(a[1..], b[1..], k) {
        assert a[..k + 1] == [a[0]] + a[1..][..k] && b[..k + 1] == [b[0]] + b[1..][..k];
        assert DiffersAt(a, b, k + 1);
      }
      if k: nat :| DiffersAt(a, b, k) {
        assert a[1..][..k - 1] == a[..k][1..] && b[1..][..k - 1] == b[..k][1..];
        assert DiffersAt(a[1..], b[1..], k - 1);
      }
    } else if b != [] {
      if a[0] < b[0] { assert DiffersAt(a, b, 0); }
    }
  }

  lemma {:induction false} BeforeIrreflexive(a: string)
    ensures !Before(a, a)
  {
    if a != [] { BeforeIrreflexive(a[1..]); }
  }

  lemma {:induction false} BeforeTransitive(a: string, b: string, c: string)
    requires Before(a, b) && Before(b, c)
    ensures Before(a, c)
  {
    if a != [] && a[0] == b[0] && b[0] == c[0] { BeforeTransitive(a[1..], b[1..], c[1..]); }
  }

  lemma {:induction false} BeforeTotal(a: string, b: string)
    ensures Before(a, b) || Before(b, a) || a == b
  {
    if a != [] && b != [] && a[0] == b[0] {
      BeforeTotal(a[1..], b[1..]);
      assert a == [a[0]] + a[1..] && b == [b[0]] + b[1..];
    }
  }

  /** Not after. */
  predicate AtMost(a: string, b: string) {
    !Before(b, a)
  }

  lemma AtMostTransitive(a: string, b: string, c: string)
    requires AtMost(a, b) && AtMost(b, c)
    ensures AtMost(a, c)
  {
    if Before(c, a) {
      BeforeTotal(a, b);
      if a != b {
        BeforeTransitive(c, a, b);
      }
    }
  }

  ghost predicate Sorted(rows: seq<Row>) {
    forall i, j | 0 <= i < j < |rows| :: AtMost(rows[i].pool, rows[j].pool)
  }

  /** Sorted but for the row at `k`, which may still have to move down. */
  ghost predicate SortedBut(rows: seq<Row>, k: nat) {
    && (forall i, j | 0 <= i < j < |rows| && j != k :: AtMost(rows[i].pool, rows[j].pool))
  }

  lemma SwapDown(rows: seq<Row>, j: nat)
    requires 0 < j < |rows| && SortedBut(rows, j) && Before(rows[j].pool, rows[j - 1].pool)
    ensures SortedBut(rows[j := rows[j - 1]][j - 1 := rows[j]], j - 1)
  {
    var r := rows[j := rows[j - 1]][j - 1 := rows[j]];
    BeforeTotal(rows[j].pool, rows[j - 1].pool);
    forall x, y | 0 <= x < y < |r| && y != j - 1 ensures AtMost(r[x].pool, r[y].pool) {
      if x == j - 1 && y == j {
        if Before(rows[j - 1].pool, rows[j].pool) {
          BeforeTransitive(rows[j - 1].pool, rows[j].pool, rows[j - 1].pool);
          BeforeIrreflexive(rows[j - 1].pool);
        }
      }
    }
  }

  lemma Settled(rows: seq<Row>, j: nat)
    requires j < |rows| && SortedBut(rows, j) && (j == 0 || !Before(rows[j].pool, rows[j - 1].pool))
    ensures Sorted(rows)
  {
    forall x, y | 0 <= x < y < |rows| ensures AtMost(rows[x].pool, rows[y].pool) {
      if y == j && x < j - 1 { AtMostTransitive(rows[x].pool, rows[j - 1].pool, rows[j].pool); }
    }
  }

  /** Insertion sort by swaps. */
  method SortPoolUsage(p: array<Row>)
    modifies p
    ensures Sorted(p[..]) && multiset(p[..]) == multiset(old(p[..]))
  {
    var i := 1;
    while i < p.Length
      invariant i >= 1 && (i <= p.Length ==> Sorted(p[..i]))
      invariant i > p.Length ==> p.Length == 0
      invariant multiset(p[..]) == multiset(old(p[..]))
    {
      Sink(p, i);
      i := i + 1;
    }
    if p.Length > 0 { assert p[..p.Length] == p[..]; }
  }

  method Sink(p: array<Row>, i: nat)
    requires 0 < i < p.Length && Sorted(p[..i])
    modifies p
    ensures Sorted(p[..i + 1]) && multiset(p[..]) == multiset(old(p[..]))
  {
    var j := i;
    while j > 0 && Before(p[j].pool, p[j - 1].pool)
      invariant 0 <= j <= i && SortedBut(p[..i + 1], j)
      invariant multiset(p[..]) == multiset(old(p[..]))
    {
      ghost var now := p[..i + 1];
      SwapDown(now, j);
      p[j], p[j - 1] := p[j - 1], p[j];
      assert p[..i + 1] == now[j := now[j - 1]][j - 1 := now[j]];
      j := j - 1;
    }
    Settled(p[..i + 1], j);
  }

  // ---- building the report ----

  function SumUsed(rows: seq<Row>): int {
    if rows == [] then 0 else rows[0].used + SumUsed(rows[1..])
  }

  lemma {:induction false} SumUsedConcat(a: seq<Row>, b: seq<Row>)
    ensures SumUsed(a + b) == SumUsed(a) + SumUsed(b)
  {
    if a == [] {
      assert a + b == b;
    } else {
      assert (a + b)[1..] == a[1..] + b;
      SumUsedConcat(a[1..], b);
    }
  }

  /** The row a pool gets: the unnamed pool shows no usage, only a limit if it has one. */
  function RowFor(byPool: map<string, int>, limits: map<string, int>, pool: string): Row {
    Row(pool, if pool == "" then 0 else At(byPool, pool), At(limits, pool))
  }

  ghost predicate Exact(rows: seq<Row>, byPool: map<string, int>, limits: map<string, int>) {
    forall r | r in rows :: r == RowFor(byPool, limits, r.pool)
  }

  function Pools(rows: seq<Row>): set<string> {
    set r | r in rows :: r.pool
  }

  ghost predicate NoRepeats(rows: seq<Row>) {
    forall i, j | 0 <= i < j < |rows| :: rows[i].pool != rows[j].pool
  }

  ghost predicate StrictlySorted(rows: seq<Row>) {
    forall i, j | 0 <= i < j < |rows| :: Before(rows[i].pool, rows[j].pool)
  }

  lemma PoolsOfTail(rows: seq<Row>)
    requires rows != [] && NoRepeats(rows)
    ensures rows[0].pool in Pools(rows) && Pools(rows) - {rows[0].pool} == Pools(rows[1..])
    ensures NoRepeats(rows[1..])
  {
    assert rows[0] in rows;
    forall i | 0 <= i < |rows[1..]| ensures rows[1..][i].pool != rows[0].pool {
      assert rows[1..][i] == rows[i + 1];
    }
    forall r | r in rows[1..] ensures r in rows && r.pool != rows[0].pool {
      var i :| 0 <= i < |rows[1..]| && rows[1..][i] == r;
    }
    forall r | r in rows && r.pool != rows[0].pool ensures r in rows[1..] {
      var i :| 0 <= i < |rows| && rows[i] == r;
      assert rows[1..][i - 1] == r;
    }
  }

  /** Distinct exact rows add up to the usage of their pools, in whatever order they stand. */
  lemma {:induction false} SumByPools(rows: seq<Row>, byPool: map<string, int>, limits: map<string, int>)
    requires Exact(rows, byPool, limits) && NoRepeats(rows)
    ensures SumUsed(rows) == SumOver(byPool - {""}, Pools(rows))
  {
    if rows != [] {
      PoolsOfTail(rows);
      assert forall r | r in rows[1..] :: r in rows;
      SumByPools(rows[1..], byPool, limits);
      SumOverWithout(byPool - {""}, Pools(rows), rows[0].pool);
      assert rows[0] in rows;
    }
  }

  lemma {:induction false} CountAtMostOne(rows: seq<Row>, r: Row)
    requires NoRepeats(rows)
    ensures multiset(rows)[r] <= 1
  {
    if rows != [] {
      assert rows == [rows[0]] + rows[1..];
      CountAtMostOne(rows[1..], r);
      assert rows[0] !in rows[1..] by {
        assert forall k | 0 <= k < |rows[1..]| :: rows[1..][k] == rows[k + 1] && rows[k + 1].pool != rows[0].pool;
      }
      assert rows[0] !in multiset(rows[1..]);
    }
  }

  lemma CountTwice(rows: seq<Row>, i: nat, j: nat)
    requires i < j < |rows| && rows[i] == rows[j]
    ensures multiset(rows)[rows[i]] >= 2
  {
    assert rows == rows[..i] + [rows[i]] + rows[i + 1..j] + [rows[j]] + rows[j + 1..];
  }

  lemma NoRepeatsIfStrict(rows: seq<Row>)
    requires StrictlySorted(rows)
    ensures NoRepeats(rows)
  {
    forall i, j | 0 <= i < j < |rows| ensures rows[i].pool != rows[j].pool {
      BeforeIrreflexive(rows[i].pool);
    }
  }

  /** Sorting distinct rows gives a strictly sorted report. */
  lemma SortedStrictly(rows: seq<Row>, sorted: seq<Row>, byPool: map<string, int>, limits: map<string, int>)
    requires Exact(rows, byPool, limits) && NoRepeats(rows) && multiset(sorted) == multiset(rows) && Sorted(sorted)
    ensures StrictlySorted(sorted) && Exact(sorted, byPool, limits) && Pools(sorted) == Pools(rows)
    ensures SumUsed(sorted) == SumUsed(rows)
  {
    forall r ensures r in sorted <==> r in rows { assert r in multiset(sorted) <==> r in multiset(rows); }
    forall i, j | 0 <= i < j < |sorted| ensures Before(sorted[i].pool, sorted[j].pool) {
      BeforeTotal(sorted[i].pool, sorted[j].pool);
      if sorted[i].pool == sorted[j].pool {
        CountTwice(sorted, i, j);
        CountAtMostOne(rows, sorted[i]);
      }
    }
    NoRepeatsIfStrict(sorted);
    SumByPools(sorted, byPool, limits);
    SumByPools(rows, byPool, limits);
  }

  lemma AppendRow(rows: seq<Row>, r: Row)
    ensures Pools(rows + [r]) == Pools(rows) + {r.pool} && SumUsed(rows + [r]) == SumUsed(rows) + r.used
    ensures NoRepeats(rows) && r.pool !in Pools(rows) ==> NoRepeats(rows + [r])
  {
    SumUsedConcat(rows, [r]);
    assert forall x | x in rows :: x.pool in Pools(rows);
    forall p ensures p in Pools(rows + [r]) <==> p in Pools(rows) + {r.pool} {
      if p in Pools(rows + [r]) {
        var x :| x in rows + [r] && x.pool == p;
        assert x in rows || x == r;
      }
      if p in Pools(rows) {
        var x :| x in rows && x.pool == p;
        assert x in rows + [r];
      }
      assert r in rows + [r];
    }
  }

  method UsedRows(byPool: map<string, int>, limits: map<string, int>) returns (rows: seq<Row>)
    ensures Exact(rows, byPool, limits) && NoRepeats(rows) && Pools(rows) == byPool.Keys - {""}
    ensures SumUsed(rows) == SumMap(byPool) - At(byPool, "")
  {
    rows := [];
    var todo := byPool.Keys;
    while todo != {}
      invariant todo <= byPool.Keys
      invariant Exact(rows, byPool, limits) && NoRepeats(rows) && Pools(rows) == byPool.Keys - todo - {""}
      invariant SumUsed(rows) + SumOver(byPool, todo) + (if "" in todo then 0 else At(byPool, "")) == SumMap(byPool)
      decreases todo
    {
      var p :| p in todo;
      SumOverWithout(byPool, todo, p);
      todo := todo - {p};
      if p == "" { continue; }
      AppendRow(rows, Row(p, byPool[p], At(limits, p)));
      rows := rows + [Row(p, byPool[p], At(limits, p))];
    }
  }

  method CappedRows(rows0: seq<Row>, byPool: map<string, int>, limits: map<string, int>) returns (rows: seq<Row>)
    requires Exact(rows0, byPool, limits) && NoRepeats(rows0) && Pools(rows0) == byPool.Keys - {""}
    ensures Exact(rows, byPool, limits) && NoRepeats(rows) && Pools(rows) == (byPool.Keys - {""}) + limits.Keys
    ensures SumUsed(rows) == SumUsed(rows0)
  {
    rows := rows0;
    var seen := byPool.Keys - {""};
    var todo := limits.Keys;
    while todo != {}
      invariant todo <= limits.Keys
      invariant Exact(rows, byPool, limits) && NoRepeats(rows) && Pools(rows) == seen + (limits.Keys - todo)
      invariant SumUsed(rows) == SumUsed(rows0)
      decreases todo
    {
      var p :| p in todo;
      todo := todo - {p};
      if p !in seen {
        AppendRow(rows, Row(p, 0, limits[p]));
        rows := rows + [Row(p, 0, limits[p])];
      }
    }
  }

  datatype Report = Report(enabled: bool, used: Usage, limits: Limits, pools: seq<Row>)

  const NO_LIMITS := Limits(0, 0, 0, 0, map[])

  function LimitsOf(h: Host, user: string): Limits {
    if h.store.Some? && user in h.store.value && !h.store.value[user].admin then h.store.value[user].limits else NO_LIMITS
  }

  /** The report: figures, and rows that are strictly sorted, cover exactly the named pools in use and
      the pools with a limit, and add up to the pooled usage but for its unattributed part. */
  ghost predicate Faithful(r: Report, vms: seq<VM>, user: string, limits: Limits) {
    && r.limits == limits && (r.enabled <==> Enabled(limits)) && r.used == UsageOf(vms, user)
    && StrictlySorted(r.pools)
    && (forall p :: p in Pools(r.pools) <==> (p != "" && UsesPool(vms, user, p)) || p in limits.pools)
    && (forall row | row in r.pools ::
          row == Row(row.pool, if row.pool == "" then 0 else Total(InPool(row.pool), user, vms), At(limits.pools, row.pool)))
    && SumUsed(r.pools) == Total(PoolTotal, user, vms) - Total(InPool(""), user, vms)
  }

  method BuildQuotaUsage(h: Host, user: string) returns (r: Option<Report>)
    ensures r.None? <==> h.compute.Failing?
    ensures r.Some? ==> Faithful(r.value, VMsOf(h), user, LimitsOf(h, user))
  {
    if h.compute.Failing? { return None; }
    var used := UsageOfOwner(VMsOf(h), user);
    var byPool := DiskUsageByPool(VMsOf(h), user);
    var q := LimitsOf(h, user);
    var rows := UsedRows(byPool, q.pools);
    rows := CappedRows(rows, byPool, q.pools);
    var a := new Row[|rows|](i requires 0 <= i < |rows| => rows[i]);
    assert a[..] == rows;
    SortPoolUsage(a);
    SortedStrictly(rows, a[..], byPool, q.pools);
    var rep := Report(Enabled(q), used, q, a[..]);
    ReportFaithful(rep, byPool, VMsOf(h), user, q);
    return Some(rep);
  }

  lemma ReportFaithful(r: Report, byPool: map<string, int>, vms: seq<VM>, user: string, q: Limits)
    requires r.limits == q && r.enabled == Enabled(q) && r.used == UsageOf(vms, user)
    requires IsPoolUsage(byPool, vms, user) && StrictlySorted(r.pools) && Exact(r.pools, byPool, q.pools)
    requires Pools(r.pools) == (byPool.Keys - {""}) + q.pools.Keys
    requires SumUsed(r.pools) == SumMap(byPool) - At(byPool, "")
    ensures Faithful(r, vms, user, q)
  {
    forall p ensures p in Pools(r.pools) <==> (p != "" && UsesPool(vms, user, p)) || p in q.pools {
      assert p in byPool <==> UsesPool(vms, user, p);
    }
  }

  /** The disk figure at the top of the report is its rows' sum, the unattributed part, and the legacy
      figures of exceptional VMs. */
  lemma ReportAddsUp(r: Report, vms: seq<VM>, user: string, q: Limits)
    requires Faithful(r, vms, user, q)
    ensures r.used.diskGB == SumUsed(r.pools) + Total(InPool(""), user, vms) + Total(Unlisted, user, vms)
  {
    DiskConserved(user, vms);
  }

  /** Whose limits the report shows: those of a user with a record who is no admin; to everybody else
      it shows none, and then no row has a limit and every row is a pool in use. */
  lemma ReportedLimits(h: Host, user: string, r: Report)
    requires Faithful(r, VMsOf(h), user, LimitsOf(h, user))
    ensures h.store.Some? && user in h.store.value && !h.store.value[user].admin ==> r.limits == h.store.value[user].limits
    ensures h.store.None? || user !in h.store.value || h.store.value[user].admin ==>
              && !r.enabled && r.limits == Limits(0, 0, 0, 0, map[])
              && forall row | row in r.pools :: row.limit == 0 && UsesPool(VMsOf(h), user, row.pool)
  {
    if h.store.None? || user !in h.store.value || h.store.value[user].admin {
      forall row | row in r.pools ensures row.limit == 0 && UsesPool(VMsOf(h), user, row.pool) {
        assert row.pool in Pools(r.pools);
      }
    }
  }
}
