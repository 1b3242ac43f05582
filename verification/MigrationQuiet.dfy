/** Exactly when a run in which nothing fails loses a disk, and what a second run makes of it. */
module MigrationQuiet {
  import opened DiskNaming
  import opened DiskMigration
  import opened MigrationSafety
  import opened MigrationResults
  import opened MigrationExact

  // ---- a disk renamed before its domain is redefined ----

  ghost predicate NoneOverlaps(env: Env, w: World, work: seq<Entry>) {
    forall e | e in work :: !Overlaps(env, w, e)
  }

  /** The circumstances of a run from `w0` in which nothing fails. */
  ghost predicate Quiet(env: Env, w0: World, w: World, work: seq<Entry>) {
    && env.caps == w0.defs && SlashFree(env) && !env.dryRun && PlainEntries(work) && Distinct(work)
    && NoneOverlaps(env, w0, work) && StillListed(w0, w, work)
  }

  lemma UnfoldGood(env: Env, st: State, work: seq<Entry>)
    requires work != []
    ensures Run(env, st, work, Good(|work|)) == Run(env, Step(env, st, work[0], GOOD), work[1..], Good(|work[1..]|))
  {
    GoodTail(|work|);
  }

  lemma QuietTail(env: Env, w0: World, st: State, work: seq<Entry>)
    requires work != [] && Quiet(env, w0, st.w, work)
    ensures Quiet(env, w0, Step(env, st, work[0], GOOD).w, work[1..])
  {
    GoodStepListed(env, w0, st, work);
    assert forall x | x in work[1..] :: x in work;
  }

  /** Redefining a domain gives another disk the path it was captured with. */
  lemma GivesOldPath(env: Env, w0: World, w: World, e: Entry, d: string, k: nat, was: string)
    requires env.caps == w0.defs && SlashFree(env) && '/' !in e.base && !Overlaps(env, w0, e)
    requires Migratable(env, e) && Owner(env, e) == d && was != PathOf(e) && was in w0.files
    requires d in w0.defs && k < |w0.defs[d]| && w0.defs[d][k] == Source(was, true)
    ensures Rewrite(Captured(env, d), PathOf(e), NewPath(env, w, e))[k].path == was
  {
    assert !Overlapped(w0, Captured(env, d), PathOf(e), k);
    NewPathIsFresh(env, w, e);
    SourceRewritten(was, PathOf(e), NewPath(env, w, e));
  }

  lemma StepKeepsStranded(env: Env, w0: World, st: State, e: Entry, d: string, k: nat, was: string, loc: string)
    requires env.caps == w0.defs && SlashFree(env) && !env.dryRun && '/' !in e.base && !Overlaps(env, w0, e)
    requires Stranded(w0, st.w, d, k, was, loc) && PathOf(e) in st.w.files && PathOf(e) != loc && PathOf(e) != was
    ensures var w' := Step(env, st, e, GOOD).w;
            && Stranded(w0, w', d, k, was, loc)
            && (Redefines(env, e) && Owner(env, e) == d ==> w'.defs[d][k].path == was)
            && (!(Redefines(env, e) && Owner(env, e) == d) ==> w'.defs[d] == st.w.defs[d])
  {
    GoodStep(env, st, e);
    if Migratable(env, e) {
      MoveKeepsStranded(env, w0, st.w, e, Step(env, st, e, GOOD).w, d, k, was, loc);
      RedefinesIff(env, st.w, e);
      if Owner(env, e) == d { GivesOldPath(env, w0, st.w, e, d, k, was); }
    }
  }

  /** `d` has the old path, or an entry still to come will give it back. */
  ghost predicate Reverts(env: Env, w: World, work: seq<Entry>, d: string, k: nat, was: string) {
    d in w.defs && k < |w.defs[d]| && (w.defs[d][k].path == was || exists e :: e in work && Redefines(env, e) && Owner(env, e) == d)
  }

  lemma StillReverts(env: Env, w0: World, st: State, work: seq<Entry>, d: string, k: nat, was: string, loc: string)
    requires work != [] && Quiet(env, w0, st.w, work) && PathOf(work[0]) != loc && PathOf(work[0]) != was
    requires Stranded(w0, st.w, d, k, was, loc) && Reverts(env, st.w, work, d, k, was)
    ensures var w' := Step(env, st, work[0], GOOD).w;
            Stranded(w0, w', d, k, was, loc) && Reverts(env, w', work[1..], d, k, was)
  {
    var e := work[0];
    assert e in work && work == [e] + work[1..];
    StepKeepsStranded(env, w0, st, e, d, k, was, loc);
  }

  lemma {:induction false} RevertLoses(env: Env, w0: World, st: State, work: seq<Entry>, d: string, k: nat, was: string, loc: string)
    requires Quiet(env, w0, st.w, work) && Stranded(w0, st.w, d, k, was, loc) && Reverts(env, st.w, work, d, k, was)
    requires forall e | e in work :: PathOf(e) != loc && PathOf(e) != was
    ensures !Integrity(w0, Run(env, st, work, Good(|work|)).w)
    decreases |work|
  {
    if work == [] {
      StrandedLoses(w0, st.w, d, k, was, loc);
    } else {
      UnfoldGood(env, st, work);
      StillReverts(env, w0, st, work, d, k, was, loc);
      QuietTail(env, w0, st, work);
      assert forall x | x in work[1..] :: x in work;
      RevertLoses(env, w0, Step(env, st, work[0], GOOD), work[1..], d, k, was, loc);
    }
  }

  ghost predicate Shapely(w0: World, w: World) {
    Injective(w.files) && SameShape(w0.defs, w.defs)
  }

  /** The entries still to come are neither the first one nor at a path that was free. */
  lemma RestElsewhere(w0: World, w: World, work: seq<Entry>, loc: string)
    requires work != [] && PlainEntries(work) && Distinct(work) && StillListed(w0, w, work) && loc !in w.files
    ensures forall e | e in work[1..] :: PathOf(e) != loc && PathOf(e) != PathOf(work[0])
  {
    forall x | x in work[1..] ensures PathOf(x) != loc && PathOf(x) != PathOf(work[0]) {
      assert x in work && x != work[0];
      if PathOf(x) == PathOf(work[0]) { JoinInjective(x, work[0]); }
    }
  }

  lemma MoveStrands(env: Env, w0: World, w: World, e: Entry, w': World, k: nat)
    requires env.caps == w0.defs && SlashFree(env) && '/' !in e.base && Moved(env, w, e, w') && Shapely(w0, w)
    requires PathOf(e) in w0.files && w.files[PathOf(e)] == w0.files[PathOf(e)]
    requires k < |Captured(env, Owner(env, e))| && Captured(env, Owner(env, e))[k] == Source(PathOf(e), true)
    ensures Stranded(w0, w', Owner(env, e), k, PathOf(e), NewPath(env, w, e))
  {
    NewPathIsFresh(env, w, e);
    OwnerListed(env, e);
  }

  lemma StepStrands(env: Env, w0: World, st: State, work: seq<Entry>) returns (k: nat, loc: string)
    requires work != [] && Quiet(env, w0, st.w, work) && OwnDisk(env, work[0]) && Shapely(w0, st.w)
    ensures Stranded(w0, Step(env, st, work[0], GOOD).w, Owner(env, work[0]), k, PathOf(work[0]), loc)
    ensures forall e | e in work[1..] :: PathOf(e) != loc && PathOf(e) != PathOf(work[0])
  {
    var e := work[0];
    assert e in work;
    k :| k < |Captured(env, Owner(env, e))| && Captured(env, Owner(env, e))[k] == Source(PathOf(e), true);
    loc := NewPath(env, st.w, e);
    NewPathIsFresh(env, st.w, e);
    GoodStep(env, st, e);
    MoveStrands(env, w0, st.w, e, Step(env, st, e, GOOD).w, k);
    RestElsewhere(w0, st.w, work, loc);
  }

  lemma FirstOfTwoLost(env: Env, w0: World, st: State, work: seq<Entry>, later: Entry)
    requires work != [] && Quiet(env, w0, st.w, work) && Shapely(w0, st.w)
    requires later in work[1..] && Clashes(env, work[0], later)
    ensures !Integrity(w0, Run(env, st, work, Good(|work|)).w)
  {
    var k, loc := StepStrands(env, w0, st, work);
    QuietTail(env, w0, st, work);
    UnfoldGood(env, st, work);
    RevertLoses(env, w0, Step(env, st, work[0], GOOD), work[1..], Owner(env, later), k, PathOf(work[0]), loc);
  }

  lemma StepKeepsShape(env: Env, w0: World, st: State, e: Entry)
    requires env.caps == w0.defs && SlashFree(env) && !env.dryRun && '/' !in e.base && Shapely(w0, st.w)
    ensures Shapely(w0, Step(env, st, e, GOOD).w)
  {
    GoodStep(env, st, e);
    if Migratable(env, e) {
      NewPathIsFresh(env, st.w, e);
      OwnerListed(env, e);
    }
  }

  lemma QuietStep(env: Env, w0: World, st: State, work: seq<Entry>)
    requires work != [] && Quiet(env, w0, st.w, work) && Shapely(w0, st.w)
    ensures var st' := Step(env, st, work[0], GOOD);
            && Quiet(env, w0, st'.w, work[1..]) && Shapely(w0, st'.w)
            && Run(env, st, work, Good(|work|)) == Run(env, st', work[1..], Good(|work[1..]|))
  {
    assert work[0] in work;
    StepKeepsShape(env, w0, st, work[0]);
    QuietTail(env, w0, st, work);
    UnfoldGood(env, st, work);
  }

  lemma TailAt(work: seq<Entry>, i: nat)
    requires 0 < i < |work|
    ensures work[1..][i - 1] == work[i] && work[i] in work[1..]
  {
    assert work[1..][i - 1] == work[i];
  }

  /** A disk renamed before a later entry redefines its domain: the definition written then is built from
      the text captured before the first rename, and nothing after it gives the disk back. */
  lemma {:induction false} ClashAlwaysLoses(env: Env, w0: World, st: State, work: seq<Entry>, i: nat, j: nat)
    requires Quiet(env, w0, st.w, work) && Shapely(w0, st.w)
    requires i < j < |work| && Clashes(env, work[i], work[j])
    ensures !Integrity(w0, Run(env, st, work, Good(|work|)).w)
    decreases i
  {
    TailAt(work, j);
    if i == 0 {
      FirstOfTwoLost(env, w0, st, work, work[j]);
    } else {
      TailAt(work, i);
      var rest, next := work[1..], Step(env, st, work[0], GOOD);
      QuietStep(env, w0, st, work);
      ClashAlwaysLoses(env, w0, next, rest, i - 1, j - 1);
      assert Run(env, st, work, Good(|work|)) == Run(env, next, rest, Good(|rest|));
    }
  }

  lemma GoodNeverStrands(env: Env, work: seq<Entry>)
    ensures !AnyStrands(env, work, Good(|work|))
  {
  }

  /** Where no path occurs in another disk's: a run in which nothing fails keeps every disk exactly when
      no disk is renamed before a later entry redefines its domain. */
  lemma ErrorFreeExactly(env: Env, w: World, stats: Stats, work: seq<Entry>)
    requires Start(env, w, work) && Injective(w.files) && !env.dryRun && NoneOverlaps(env, w, work)
    ensures Integrity(w, Run(env, State(w, stats), work, Good(|work|)).w)
            <==> forall i, j | 0 <= i < j < |work| :: !Clashes(env, work[i], work[j])
  {
    if i, j :| 0 <= i < j < |work| && Clashes(env, work[i], work[j]) {
      ClashAlwaysLoses(env, w, State(w, stats), work, i, j);
    } else {
      GoodNeverStrands(env, work);
      MigrationKeepsDisks(env, w, stats, work, Good(|work|));
    }
  }

  // ---- the situations arise ----

  lemma RefsOfOne(d: string, defs: Defs, a: string, b: string, base: string)
    requires d in defs && defs[d] == [Source(a, true), Source(b, true)]
    ensures Refs([d], defs, base) == (if Base(a) == base then [d] else []) + (if Base(b) == base then [d] else [])
  {
    var srcs := defs[d];
    assert srcs[1..] == [srcs[1]] && srcs[1..][1..] == [];
    assert RefsIn(d, srcs[1..][1..], base) == [];
    assert RefsIn(d, srcs[1..], base) == if Base(b) == base then [d] else [];
    assert [d][1..] == [];
    assert Refs([d], defs, base) == RefsIn(d, srcs, base) + Refs([], defs, base);
  }

  /** The domain `d` is alone, with two disks. */
  ghost predicate TwoDisks(env: Env, w: World, d: string, a: string, b: string) {
    env.doms == [d] && '/' !in d && env.caps == w.defs && w.defs == map[d := [Source(a, true), Source(b, true)]]
  }

  lemma PrefixOverlaps(env: Env, w: World, d: string, e: Entry)
    requires TwoDisks(env, w, d, PathOf(e), PathOf(e) + EXT) && '/' !in e.base && !NewFormat(d, EXT, e.base)
    requires PathOf(e) + EXT in w.files
    ensures Overlaps(env, w, e)
  {
    var p := PathOf(e);
    BaseOfJoin(e.dir, e.base);
    BaseOfJoin(e.dir, e.base + EXT);
    assert p + EXT == Join(e.dir, e.base + EXT);
    assert |e.base + EXT| > |e.base|;
    RefsOfOne(d, w.defs, p, p + EXT, e.base);
    assert Migratable(env, e) && Owner(env, e) == d;
    assert Occurs(p, p + EXT) by { assert (p + EXT)[..|p|] == p; }
    assert Overlapped(w, Captured(env, d), p, 1);
  }

  /** A domain with disks `p` and `p.qcow2` of which `p` is to be renamed loses the other one, because the
      new path is written into it as well. */
  lemma OverlapArises(env: Env, w: World, stats: Stats, d: string, e: Entry)
    requires TwoDisks(env, w, d, PathOf(e), PathOf(e) + EXT) && '/' !in e.base && !NewFormat(d, EXT, e.base) && !env.dryRun
    requires PathOf(e) in w.files && PathOf(e) + EXT in w.files && Injective(w.files)
    ensures Overlaps(env, w, e) && !Integrity(w, Step(env, State(w, stats), e, GOOD).w)
  {
    PrefixOverlaps(env, w, d, e);
    assert [e][0] == e;
    OverlapLoses(env, w, State(w, stats), [e], e);
  }

  // ---- a second run makes the loss final ----

  /** Two disks of a domain that is alone, in one directory and both to be renamed. */
  ghost predicate Pair(env: Env, w: World, d: string, e: Entry, later: Entry) {
    && TwoDisks(env, w, d, PathOf(e), PathOf(later)) && !env.dryRun && e != later && e.dir == later.dir
    && '/' !in e.base && '/' !in later.base && !NewFormat(d, EXT, e.base) && !NewFormat(d, EXT, later.base)
    && PathOf(e) in w.files && PathOf(later) in w.files && Injective(w.files) && !Occurs(PathOf(later), PathOf(e))
  }

  lemma PairMigratable(env: Env, w: World, d: string, e: Entry, later: Entry)
    requires Pair(env, w, d, e, later)
    ensures Migratable(env, e) && Migratable(env, later) && Owner(env, e) == d && Owner(env, later) == d
    ensures PathOf(e) != PathOf(later) && Base(PathOf(e)) == e.base && Base(PathOf(later)) == later.base
  {
    BaseOfJoin(e.dir, e.base);
    BaseOfJoin(later.dir, later.base);
    RefsOfOne(d, w.defs, PathOf(e), PathOf(later), e.base);
    RefsOfOne(d, w.defs, PathOf(e), PathOf(later), later.base);
  }

  lemma PairFirst(env: Env, w: World, st: State, d: string, e: Entry, later: Entry)
    requires Pair(env, w, d, e, later) && Migratable(env, e) && Owner(env, e) == d && st.w == w && PathOf(e) != PathOf(later)
    ensures var w1, loc := Step(env, st, e, GOOD).w, NewPath(env, w, e);
            && w1.files == Renamed(w.files, PathOf(e), loc) && w1.defs.Keys == {d} && Injective(w1.files)
            && loc !in w.files && loc == Join(e.dir, Base(loc)) && '/' !in Base(loc) && NewFormat(d, EXT, Base(loc))
  {
    GoodStep(env, st, e);
    NewPathIsFresh(env, w, e);
  }

  lemma MovedTwice(files: map<string, nat>, a: string, loc: string, b: string, n: string)
    requires a in files && b in files && a != b && loc !in files && Injective(files)
    requires n !in Renamed(files, a, loc)
    ensures b in Renamed(files, a, loc) && n != loc
    ensures var moved := Renamed(Renamed(files, a, loc), b, n); loc in moved && moved[loc] == files[a] && Injective(moved)
  {
  }

  lemma PairSecond(env: Env, w: World, st1: State, d: string, e: Entry, later: Entry, loc: string)
    requires Pair(env, w, d, e, later) && Migratable(env, later) && Owner(env, later) == d && PathOf(e) != PathOf(later)
    requires loc !in w.files && st1.w.files == Renamed(w.files, PathOf(e), loc) && st1.w.defs.Keys == {d}
    ensures var w2, n := Step(env, st1, later, GOOD).w, NewPath(env, st1.w, later);
            && n != loc && n == Join(later.dir, Base(n))
            && loc in w2.files && w2.files[loc] == w.files[PathOf(e)] && Injective(w2.files)
            && w2.defs == map[d := [Source(PathOf(e), true), Source(n, true)]]
  {
    var n, srcs := NewPath(env, st1.w, later), Captured(env, d);
    var w2 := Step(env, st1, later, GOOD).w;
    NewPathIsFresh(env, st1.w, later);
    MovedTwice(w.files, PathOf(e), loc, PathOf(later), n);
    GoodStep(env, st1, later);
    PairRewritten(env, st1.w, d, e, later);
    assert srcs[1].path != n;
    SoleDef(st1.w.defs, d, [Source(PathOf(e), true), Source(n, true)]);
  }

  lemma SoleDef(defs: Defs, d: string, srcs: seq<Source>)
    requires defs.Keys == {d}
    ensures defs[d := srcs] == map[d := srcs]
  {
  }

  /** What the first run leaves: the first disk under a name that no definition mentions. */
  lemma PairRun(env: Env, w: World, stats: Stats, d: string, e: Entry, later: Entry) returns (loc: string, n: string)
    requires Pair(env, w, d, e, later)
    ensures Migratable(env, e) && loc == NewPath(env, w, e) && '/' !in Base(loc) && loc == Join(e.dir, Base(loc))
    ensures var w1 := Run(env, State(w, stats), [e, later], Good(2)).w;
            && loc in w1.files && w1.files[loc] == w.files[PathOf(e)] && Injective(w1.files)
            && w1.defs == map[d := [Source(PathOf(e), true), Source(n, true)]]
    ensures Base(n) != Base(loc) && Base(PathOf(e)) != Base(loc)
  {
    PairMigratable(env, w, d, e, later);
    var st := State(w, stats);
    var st1 := Step(env, st, e, GOOD);
    UnfoldTwo(env, st, e, later);
    loc := NewPath(env, w, e);
    PairFirst(env, w, st, d, e, later);
    n := NewPath(env, st1.w, later);
    PairSecond(env, w, st1, d, e, later, loc);
  }

  lemma UnfoldTwo(env: Env, st: State, e: Entry, later: Entry)
    ensures Run(env, st, [e, later], Good(2)) == Step(env, Step(env, st, e, GOOD), later, GOOD)
  {
    assert [e, later][1..] == [later] && [later][1..] == [];
    UnfoldGood(env, st, [e, later]);
    UnfoldGood(env, Step(env, st, e, GOOD), [later]);
  }

  lemma PairRewritten(env: Env, w1: World, d: string, e: Entry, later: Entry)
    requires env.caps == map[d := [Source(PathOf(e), true), Source(PathOf(later), true)]] && SlashFree(env)
    requires Migratable(env, later) && Owner(env, later) == d && '/' !in later.base && !Occurs(PathOf(later), PathOf(e))
    ensures Rewrite(Captured(env, d), PathOf(later), NewPath(env, w1, later))
            == [Source(PathOf(e), true), Source(NewPath(env, w1, later), true)]
  {
    NewPathIsFresh(env, w1, later);
    SourceRewritten(PathOf(e), PathOf(later), NewPath(env, w1, later));
    ReplaceWhole(PathOf(later), NewPath(env, w1, later));
  }

  /** With orphan cleanup the second run deletes the first disk: its content is in no file any more. */
  lemma SecondRunDeletes(env: Env, w: World, stats: Stats, d: string, e: Entry, later: Entry, stats': Stats)
    requires Pair(env, w, d, e, later)
    ensures var w1 := Run(env, State(w, stats), [e, later], Good(2)).w;
            Migratable(env, e) &&
            var x := Entry(e.dir, Base(NewPath(env, w, e)));
            && PathOf(x) in w1.files && w1.files[PathOf(x)] == w.files[PathOf(e)]
            && w.files[PathOf(e)] !in Step(env.(caps := w1.defs, cleanup := true), State(w1, stats'), x, GOOD).w.files.Values
  {
    var w1 := Run(env, State(w, stats), [e, later], Good(2)).w;
    var loc, n := PairRun(env, w, stats, d, e, later);
    RefsOfOne(d, w1.defs, PathOf(e), n, Base(loc));
  }
}
