/** The dry run counts what the real run does, and a second run finds nothing to do. */
module MigrationRuns {
  import opened DiskNaming
  import opened DiskMigration
  import opened MigrationSafety
  import opened MigrationResults

  // ---- the dry run is faithful ----

  lemma DryStep(env: Env, st: State, e: Entry)
    requires env.dryRun
    ensures Step(env, st, e, GOOD).w == st.w
  {
  }

  /** A dry run and an error-free real run from the same state report the same counters, although
      only the real one changes the directory the new names are chosen from. */
  lemma {:induction false} DryRunFaithful(env: Env, w0: World, dry: State, live: State, work: seq<Entry>)
    requires SlashFree(env) && PlainEntries(work) && Distinct(work) && !env.dryRun
    requires StillListed(w0, live.w, work) && dry.stats == live.stats
    ensures var dryRun := Run(env.(dryRun := true), dry, work, Good(|work|));
            dryRun.stats == Run(env, live, work, Good(|work|)).stats && dryRun.w == dry.w
    decreases |work|
  {
    if work != [] {
      var e := work[0];
      GoodTail(|work|);
      DryStep(env.(dryRun := true), dry, e);
      GoodStepListed(env, w0, live, work);
      DryRunFaithful(env, w0, Step(env.(dryRun := true), dry, e, GOOD), Step(env, live, e, GOOD), work[1..]);
    }
  }

  // ---- a second run renames nothing ----

  /** A base name of a pool entry is only ever used by sources that mean that very file. */
  ghost predicate Unambiguous(env: Env, work: seq<Entry>) {
    forall e, d, i | e in work && d in env.caps && 0 <= i < |env.caps[d]| && Mentions(env.caps[d], i, e.base) ::
      env.caps[d][i].path == PathOf(e)
  }

  ghost predicate NoRepeats(doms: seq<string>) {
    forall i, j | 0 <= i < j < |doms| :: doms[i] != doms[j]
  }

  /** A source is either as captured, or was rewritten from the path of a migratable entry to a name
      of its domain's own format. */
  ghost predicate SourceOk(env: Env, work: seq<Entry>, w0: World, w: World, d: string, i: nat)
    requires d in w0.defs && d in w.defs && i < |w0.defs[d]| && i < |w.defs[d]|
  {
    || w.defs[d][i] == w0.defs[d][i]
    || (NewFormat(d, EXT, Base(w.defs[d][i].path))
        && exists x :: x in work && Migratable(env, x) && w0.defs[d][i].path == PathOf(x))
  }

  /** The path is what some domain calls its disk, by a name of that domain's own format. */
  ghost predicate Claimed(w: World, path: string) {
    exists d, i: nat :: d in w.defs && i < |w.defs[d]| && w.defs[d][i] == Source(path, true) && NewFormat(d, EXT, Base(path))
  }

  ghost predicate SettledEntry(env: Env, work: seq<Entry>, w: World, e: Entry) {
    (e in work && !Migratable(env, e) && (env.cleanup ==> !Orphan(env, e))) || Claimed(w, PathOf(e))
  }

  ghost predicate InDirs(work: seq<Entry>, e: Entry) {
    '/' !in e.base && exists x :: x in work && x.dir == e.dir
  }

  ghost predicate Tracked(env: Env, work: seq<Entry>, w0: World, w: World, rest: seq<Entry>) {
    && SameShape(w0.defs, w.defs)
    && (forall d, i: nat | d in w0.defs && i < |w0.defs[d]| :: SourceOk(env, work, w0, w, d, i))
    && (forall e | InDirs(work, e) && PathOf(e) in w.files :: e in rest || SettledEntry(env, work, w, e))
  }

  /** In an unambiguous setting every migratable entry is its owner's disk. */
  lemma MigratableIsDisk(env: Env, work: seq<Entry>, e: Entry) returns (i: nat)
    requires Unambiguous(env, work) && e in work && Migratable(env, e)
    ensures Owner(env, e) in env.caps && i < |env.caps[Owner(env, e)]|
    ensures env.caps[Owner(env, e)][i] == Source(PathOf(e), true) && ToRewrite(env, e)
  {
    i := RefsSound(env.doms, env.caps, e.base, Owner(env, e));
  }

  lemma TrackedSources(env: Env, work: seq<Entry>, w0: World, w: World, e: Entry, w': World, now: string)
    requires env.caps == w0.defs && e in work && Migratable(env, e)
    requires SameShape(w0.defs, w.defs)
    requires forall d, i: nat | d in w0.defs && i < |w0.defs[d]| :: SourceOk(env, work, w0, w, d, i)
    requires Def(w.defs, Owner(env, e)) == Captured(env, Owner(env, e))
    requires SourcesMoved(w, w', Owner(env, e), PathOf(e), now) && NewFormat(Owner(env, e), EXT, Base(now))
    ensures SameShape(w0.defs, w'.defs)
    ensures forall d, i: nat | d in w0.defs && i < |w0.defs[d]| :: SourceOk(env, work, w0, w', d, i)
  {
    forall d, i: nat | d in w0.defs && i < |w0.defs[d]| ensures SourceOk(env, work, w0, w', d, i) {
      assert SourceOk(env, work, w0, w, d, i);
      if d == Owner(env, e) && w.defs[d][i].path == PathOf(e) {
        assert w0.defs[d][i].path == PathOf(e);
      } else {
        assert w'.defs[d][i] == w.defs[d][i];
      }
    }
  }

  lemma ClaimSurvives(w: World, w': World, owner: string, was: string, now: string, path: string)
    requires SourcesMoved(w, w', owner, was, now) && Claimed(w, path) && path != was
    ensures Claimed(w', path)
  {
    var d, i: nat :| d in w.defs && i < |w.defs[d]| && w.defs[d][i] == Source(path, true) && NewFormat(d, EXT, Base(path));
    assert w'.defs[d][i] == Source(path, true);
  }

  lemma TrackedFiles(env: Env, all: seq<Entry>, w0: World, w: World, rest: seq<Entry>, w': World, now: string, x: Entry)
    requires rest != [] && Tracked(env, all, w0, w, rest) && Migratable(env, rest[0])
    requires SourcesMoved(w, w', Owner(env, rest[0]), PathOf(rest[0]), now) && Claimed(w', now)
    requires InDirs(all, x) && PathOf(x) in w'.files
    ensures x in rest[1..] || SettledEntry(env, all, w', x)
  {
    if PathOf(x) != now {
      assert PathOf(x) in w.files && PathOf(x) != PathOf(rest[0]);
      assert x in rest ==> x in rest[1..];
      if Claimed(w, PathOf(x)) {
        ClaimSurvives(w, w', Owner(env, rest[0]), PathOf(rest[0]), now, PathOf(x));
      }
    }
  }

  lemma TrackedMove(env: Env, all: seq<Entry>, w0: World, w: World, rest: seq<Entry>, w': World)
    requires rest != [] && Setting(env, w0, rest) && Ahead(env, w0, w, rest) && Unambiguous(env, all)
    requires (forall e | e in rest :: e in all) && PlainEntries(all)
    requires Tracked(env, all, w0, w, rest) && Moved(env, w, rest[0], w')
    ensures Tracked(env, all, w0, w', rest[1..])
  {
    var e := rest[0];
    var owner, now := Owner(env, e), NewPath(env, w, e);
    var k := MigratableIsDisk(env, all, e);
    NewPathIsFresh(env, w, e);
    MovedBySource(env, w0, w, rest, w');
    assert Def(w.defs, owner) == Captured(env, owner);
    TrackedSources(env, all, w0, w, e, w', now);
    assert Claimed(w', now) by { assert w'.defs[owner][k] == Source(now, true); }
    forall x | InDirs(all, x) && PathOf(x) in w'.files ensures x in rest[1..] || SettledEntry(env, all, w', x) {
      TrackedFiles(env, all, w0, w, rest, w', now, x);
    }
  }

  /** An entry that is no disk to rename is left alone, or removed as an orphan. */
  lemma TrackedOther(env: Env, all: seq<Entry>, w0: World, w: World, rest: seq<Entry>, w': World)
    requires rest != [] && PlainEntries(all) && (forall e | e in rest :: e in all) && Tracked(env, all, w0, w, rest)
    requires !Migratable(env, rest[0])
    requires w' == w.(files := if env.cleanup && Orphan(env, rest[0]) then w.files - {PathOf(rest[0])} else w.files)
    ensures Tracked(env, all, w0, w', rest[1..])
  {
    assert w'.defs == w.defs;
    forall x | InDirs(all, x) && PathOf(x) in w'.files ensures x in rest[1..] || SettledEntry(env, all, w', x) {
      assert x in rest ==> x == rest[0] || x in rest[1..];
      if Claimed(w, PathOf(x)) { assert Claimed(w', PathOf(x)); }
    }
    forall d, i: nat | d in w0.defs && i < |w0.defs[d]| ensures SourceOk(env, all, w0, w', d, i) {
      assert SourceOk(env, all, w0, w, d, i);
    }
  }

  lemma TrackedStep(env: Env, all: seq<Entry>, w0: World, st: State, rest: seq<Entry>)
    requires rest != [] && Setting(env, w0, rest) && Ahead(env, w0, st.w, rest) && Unambiguous(env, all) && !env.dryRun
    requires (forall e | e in rest :: e in all) && PlainEntries(all)
    requires Tracked(env, all, w0, st.w, rest)
    ensures Tracked(env, all, w0, Step(env, st, rest[0], GOOD).w, rest[1..])
  {
    var e := rest[0];
    GoodStep(env, st, e);
    if Migratable(env, e) {
      TrackedMove(env, all, w0, st.w, rest, Step(env, st, e, GOOD).w);
    } else {
      TrackedOther(env, all, w0, st.w, rest, Step(env, st, e, GOOD).w);
    }
  }

  lemma {:induction false} TrackedRun(env: Env, all: seq<Entry>, w0: World, st: State, rest: seq<Entry>)
    requires Setting(env, w0, rest) && Ahead(env, w0, st.w, rest) && Integrity(w0, st.w) && Unambiguous(env, all) && !env.dryRun
    requires (forall e | e in rest :: e in all) && PlainEntries(all)
    requires Tracked(env, all, w0, st.w, rest)
    ensures Tracked(env, all, w0, Run(env, st, rest, Good(|rest|)).w, [])
    decreases |rest|
  {
    if rest == [] {
    } else {
      GoodTail(|rest|);
      TrackedStep(env, all, w0, st, rest);
      StepKeeps(env, w0, st, rest, GOOD);
      SettingOfTail(env, w0, rest);
      assert forall e | e in rest[1..] :: e in rest;
      TrackedRun(env, all, w0, Step(env, st, rest[0], GOOD), rest[1..]);
    }
  }

  lemma {:induction false} RefsInAtMost(d: string, srcs: seq<Source>, base: string, i: nat)
    requires forall j: nat | Mentions(srcs, j, base) :: j == i
    ensures |RefsIn(d, srcs, base)| <= 1
    ensures i >= |srcs| ==> RefsIn(d, srcs, base) == []
  {
    if srcs != [] {
      assert forall j: nat :: Mentions(srcs[1..], j, base) <==> Mentions(srcs, j + 1, base);
      if i == 0 {
        RefsInAtMost(d, srcs[1..], base, |srcs|);
      } else {
        assert !Mentions(srcs, 0, base);
        RefsInAtMost(d, srcs[1..], base, i - 1);
      }
    }
  }

  lemma {:induction false} RefsAtMostOne(doms: seq<string>, caps: Defs, base: string, d: string, i: nat)
    requires NoRepeats(doms)
    requires forall d', j: nat | d' in doms && d' in caps && Mentions(caps[d'], j, base) :: d' == d && j == i
    ensures |Refs(doms, caps, base)| <= 1
    ensures d !in doms ==> Refs(doms, caps, base) == []
  {
    if doms != [] {
      var h := doms[0];
      assert NoRepeats(doms[1..]) && (forall x | x in doms[1..] :: x in doms) && h !in doms[1..];
      RefsAtMostOne(doms[1..], caps, base, d, i);
      if h in caps {
        RefsInAtMost(h, caps[h], base, if h == d then i else |caps[h]|);
      }
    }
  }

  lemma AnotherMention(doms: seq<string>, caps: Defs, base: string, d: string, i: nat) returns (d': string, j: nat)
    requires NoRepeats(doms) && |Refs(doms, caps, base)| > 1
    ensures d' in doms && d' in caps && Mentions(caps[d'], j, base) && (d' != d || j != i)
  {
    if forall d', j: nat | d' in doms && d' in caps && Mentions(caps[d'], j, base) :: d' == d && j == i {
      RefsAtMostOne(doms, caps, base, d, i);
      assert false;
    }
    d', j :| d' in doms && d' in caps && Mentions(caps[d'], j, base) && (d' != d || j != i);
  }

  /** A base name its only mention does not own is no new name of that run. */
  lemma OnlyMentionOwns(env: Env, w: World, e: Entry, d: string, i: nat)
    requires Claimed(w, PathOf(e)) && '/' !in e.base && Refs(env.doms, w.defs, e.base) == [d]
    requires (forall x | x in w.defs :: x in env.doms) && d in w.defs && Mentions(w.defs[d], i, e.base)
    ensures NewFormat(d, EXT, e.base)
  {
    BaseOfJoin(e.dir, e.base);
    var d', j: nat :| d' in w.defs && j < |w.defs[d']| && w.defs[d'][j] == Source(PathOf(e), true)
                      && NewFormat(d', EXT, Base(PathOf(e)));
    assert Mentions(w.defs[d'], j, e.base);
    RefsCount(env.doms, w.defs, e.base, d, i, d', j);
  }

  lemma TrackedNothingLeft(env: Env, work: seq<Entry>, w0: World, w: World, e: Entry)
    requires Start(env, w0, work) && Unambiguous(env, work) && NoRepeats(env.doms)
    requires Tracked(env, work, w0, w, []) && InDirs(work, e) && PathOf(e) in w.files
    ensures !Migratable(env.(caps := w.defs), e)
  {
    if Refs(env.doms, w.defs, e.base) != [] && |Refs(env.doms, w.defs, e.base)| == 1 {
      var d := Refs(env.doms, w.defs, e.base)[0];
      var i := RefsSound(env.doms, w.defs, e.base, d);
      assert SettledEntry(env, work, w, e);
      if Claimed(w, PathOf(e)) {
        OnlyMentionOwns(env, w, e, d, i);
      } else {
        UnclaimedNotMigratable(env, work, w0, w, e, d, i);
      }
    }
  }

  lemma MentionedBefore(env: Env, work: seq<Entry>, w0: World, w: World, base: string, d: string, i: nat)
    requires Tracked(env, work, w0, w, []) && d in w.defs && Mentions(w.defs[d], i, base) && !NewFormat(d, EXT, base)
    ensures Mentions(w0.defs[d], i, base)
  {
    assert SourceOk(env, work, w0, w, d, i);
  }

  lemma UnclaimedNotMigratable(env: Env, work: seq<Entry>, w0: World, w: World, e: Entry, d: string, i: nat)
    requires Start(env, w0, work) && Unambiguous(env, work) && NoRepeats(env.doms)
    requires Tracked(env, work, w0, w, []) && e in work && !Migratable(env, e)
    requires Refs(env.doms, w.defs, e.base) == [d] && d in w.defs && Mentions(w.defs[d], i, e.base)
    ensures NewFormat(d, EXT, e.base)
  {
    if !NewFormat(d, EXT, e.base) {
      MentionedBefore(env, work, w0, w, e.base, d, i);
      var d', j := SecondMention(env, w0, e, d, i);
      StillMentions(env, work, w0, w, e, d', j);
      RefsCount(env.doms, w.defs, e.base, d, i, d', j);
    }
  }

  /** An entry that is not migratable although a foreign name mentions it has a second mention. */
  lemma SecondMention(env: Env, w0: World, e: Entry, d: string, i: nat) returns (d': string, j: nat)
    requires env.caps == w0.defs && NoRepeats(env.doms) && d in env.doms && !Migratable(env, e)
    requires d in w0.defs && Mentions(w0.defs[d], i, e.base) && !NewFormat(d, EXT, e.base)
    ensures d' in env.doms && d' in w0.defs && Mentions(w0.defs[d'], j, e.base) && (d' != d || j != i)
  {
    RefsCount(env.doms, w0.defs, e.base, d, i, d, i);
    d', j := AnotherMention(env.doms, w0.defs, e.base, d, i);
  }

  lemma StillMentions(env: Env, work: seq<Entry>, w0: World, w: World, e: Entry, d: string, j: nat)
    requires Start(env, w0, work) && Unambiguous(env, work) && Tracked(env, work, w0, w, [])
    requires e in work && !Migratable(env, e) && d in w0.defs && Mentions(w0.defs[d], j, e.base)
    ensures Mentions(w.defs[d], j, e.base)
  {
    assert SourceOk(env, work, w0, w, d, j);
    assert w0.defs[d][j].path == PathOf(e);
    if w.defs[d][j] != w0.defs[d][j] {
      var x :| x in work && Migratable(env, x) && w0.defs[d][j].path == PathOf(x);
      JoinInjective(x, e);
      assert false;
    }
  }

  /** With orphan cleanup no orphan is left either. */
  lemma TrackedNoOrphan(env: Env, work: seq<Entry>, w0: World, w: World, e: Entry)
    requires Start(env, w0, work) && Unambiguous(env, work) && env.cleanup
    requires Tracked(env, work, w0, w, []) && InDirs(work, e) && PathOf(e) in w.files
    ensures !Orphan(env.(caps := w.defs), e)
  {
    assert SettledEntry(env, work, w, e);
    if Claimed(w, PathOf(e)) {
      ClaimedIsReferenced(env, w, e);
    } else {
      var refs := Refs(env.doms, env.caps, e.base);
      var i := RefsSound(env.doms, env.caps, e.base, refs[0]);
      StillMentions(env, work, w0, w, e, refs[0], i);
      RefsCount(env.doms, w.defs, e.base, refs[0], i, refs[0], i);
    }
  }

  lemma ClaimedIsReferenced(env: Env, w: World, e: Entry)
    requires Claimed(w, PathOf(e)) && '/' !in e.base && forall d | d in w.defs :: d in env.doms
    ensures Refs(env.doms, w.defs, e.base) != []
  {
    var d, i: nat :| d in w.defs && i < |w.defs[d]| && w.defs[d][i] == Source(PathOf(e), true) && NewFormat(d, EXT, Base(PathOf(e)));
    BaseOfJoin(e.dir, e.base);
    assert Mentions(w.defs[d], i, e.base);
    RefsCount(env.doms, w.defs, e.base, d, i, d, i);
  }

  /** Neither to be renamed nor to be removed. */
  ghost predicate Idles(env: Env, e: Entry) {
    !Migratable(env, e) && (env.cleanup ==> !Orphan(env, e))
  }

  lemma SettledStep(env: Env, st: State, e: Entry, f: Fault)
    requires Idles(env, e)
    ensures var st' := Step(env, st, e, f); st'.w == st.w && st'.stats.renamed == st.stats.renamed
  {
  }

  lemma {:induction false} NothingToDo(env: Env, st: State, work: seq<Entry>, faults: seq<Fault>)
    requires |faults| == |work| && forall e | e in work :: Idles(env, e)
    ensures var r := Run(env, st, work, faults); r.w == st.w && r.stats.renamed == st.stats.renamed
    decreases |work|
  {
    if work != [] {
      assert forall e | e in work[1..] :: e in work;
      SettledStep(env, st, work[0], faults[0]);
      NothingToDo(env, Step(env, st, work[0], faults[0]), work[1..], faults[1..]);
    }
  }

  /** The work covers every file of its directories. */
  ghost predicate WholeDirs(w: World, work: seq<Entry>) {
    forall e | InDirs(work, e) && PathOf(e) in w.files :: e in work
  }

  /** The world an error-free run leaves. */
  ghost function Left(env: Env, w: World, work: seq<Entry>): World {
    Run(env, State(w, Stats(0, 0, 0, 0)), work, Good(|work|)).w
  }

  lemma {:induction false} CountersAside(env: Env, w: World, s1: Stats, s2: Stats, work: seq<Entry>, faults: seq<Fault>)
    requires |faults| == |work|
    ensures Run(env, State(w, s1), work, faults).w == Run(env, State(w, s2), work, faults).w
    decreases |work|
  {
    if work != [] {
      var t1, t2 := Step(env, State(w, s1), work[0], faults[0]), Step(env, State(w, s2), work[0], faults[0]);
      assert t1.w == t2.w;
      CountersAside(env, t1.w, t1.stats, t2.stats, work[1..], faults[1..]);
    }
  }

  lemma StartIsTracked(env: Env, w: World, work: seq<Entry>)
    requires Start(env, w, work) && WholeDirs(w, work)
    ensures Tracked(env, work, w, w, work)
  {
    forall d, i: nat | d in w.defs && i < |w.defs[d]| ensures SourceOk(env, work, w, w, d, i) {}
  }

  lemma StartIsAhead(env: Env, w: World, work: seq<Entry>)
    requires Start(env, w, work) && NoOverlap(env, work) && OnePerDomain(env, work)
    ensures Setting(env, w, work) && Ahead(env, w, w, work) && Integrity(w, w)
  {
  }

  lemma LeftIsTracked(env: Env, w: World, work: seq<Entry>)
    requires Start(env, w, work) && NoOverlap(env, work) && OnePerDomain(env, work) && Unambiguous(env, work) && !env.dryRun
    requires WholeDirs(w, work)
    ensures Tracked(env, work, w, Left(env, w, work), [])
  {
    StartIsTracked(env, w, work);
    StartIsAhead(env, w, work);
    TrackedRun(env, work, w, State(w, Stats(0, 0, 0, 0)), work);
  }

  /** In the world an error-free run leaves, no file of its directories is to be renamed any more, nor,
      with orphan cleanup, to be removed. */
  lemma NothingLeft(env: Env, w: World, work: seq<Entry>, e: Entry)
    requires Start(env, w, work) && NoOverlap(env, work) && OnePerDomain(env, work) && Unambiguous(env, work)
    requires NoRepeats(env.doms) && !env.dryRun && WholeDirs(w, work)
    requires InDirs(work, e) && PathOf(e) in Left(env, w, work).files
    ensures Idles(env.(caps := Left(env, w, work).defs), e)
  {
    LeftIsTracked(env, w, work);
    TrackedNothingLeft(env, work, w, Left(env, w, work), e);
    if env.cleanup { TrackedNoOrphan(env, work, w, Left(env, w, work), e); }
  }

  /** Idempotence: after an error-free run over whole directories, a second run (with definitions
      captured afresh, and whatever would fail in it) renames nothing and changes nothing. */
  lemma SecondRunRenamesNothing(env: Env, w: World, stats: Stats, work: seq<Entry>, again: seq<Entry>, faults: seq<Fault>, stats': Stats)
    requires Start(env, w, work) && NoOverlap(env, work) && OnePerDomain(env, work) && Unambiguous(env, work)
    requires NoRepeats(env.doms) && !env.dryRun && WholeDirs(w, work)
    requires |faults| == |again|
    requires var w1 := Run(env, State(w, stats), work, Good(|work|)).w;
             forall e | e in again :: InDirs(work, e) && PathOf(e) in w1.files
    ensures var w1 := Run(env, State(w, stats), work, Good(|work|)).w;
            var r := Run(env.(caps := w1.defs), State(w1, stats'), again, faults);
            r.w == w1 && r.stats.renamed == stats'.renamed
  {
    var w1 := Run(env, State(w, stats), work, Good(|work|)).w;
    CountersAside(env, w, stats, Stats(0, 0, 0, 0), work, Good(|work|));
    forall e | e in again ensures Idles(env.(caps := w1.defs), e) {
      NothingLeft(env, w, work, e);
    }
    NothingToDo(env.(caps := w1.defs), State(w1, stats'), again, faults);
  }
}
