/** What the migration keeps: file contents, and the file every disk source resolves to. */
module MigrationSafety {
  import opened DiskMigration

  // ---- what a run starts from ----

  ghost predicate Distinct(work: seq<Entry>) {
    forall i, j | 0 <= i < j < |work| :: work[i] != work[j]
  }

  ghost predicate PlainEntries(work: seq<Entry>) {
    forall e | e in work :: '/' !in e.base
  }

  /** The definitions were captured from this world, and `work` lists files that exist in it. */
  ghost predicate Start(env: Env, w: World, work: seq<Entry>) {
    && env.caps == w.defs && SlashFree(env)
    && (forall d | d in env.caps :: d in env.doms)
    && PlainEntries(work) && Distinct(work)
    && (forall e | e in work :: PathOf(e) in w.files)
  }

  ghost predicate HasSource(srcs: seq<Source>, path: string) {
    exists i :: 0 <= i < |srcs| && srcs[i].path == path
  }

  /** The path of a file to be renamed occurs in its owner's captured definition only as a whole
      disk source, never inside a longer path. */
  ghost predicate NoOverlap(env: Env, work: seq<Entry>) {
    forall e, i | e in work && Migratable(env, e) && 0 <= i < |Captured(env, Owner(env, e))| ::
      Occurs(PathOf(e), Captured(env, Owner(env, e))[i].path) ==>
        Captured(env, Owner(env, e))[i] == Source(PathOf(e), true)
  }

  ghost predicate ToRewrite(env: Env, e: Entry) {
    Migratable(env, e) && HasSource(Captured(env, Owner(env, e)), PathOf(e))
  }

  /** At most one disk to rename per domain. */
  ghost predicate OnePerDomain(env: Env, work: seq<Entry>) {
    forall e, e' | e in work && e' in work && ToRewrite(env, e) && ToRewrite(env, e') ::
      Owner(env, e) == Owner(env, e') ==> e == e'
  }

  ghost predicate AllUndo(faults: seq<Fault>) {
    forall f | f in faults :: f.undoOk
  }

  // ---- referential integrity ----

  ghost predicate SameShape(defs0: Defs, defs: Defs) {
    && defs.Keys == defs0.Keys
    && (forall d | d in defs0 :: |defs[d]| == |defs0[d]|)
    && (forall d, i | d in defs0 && 0 <= i < |defs0[d]| :: defs[d][i].isDisk == defs0[d][i].isDisk)
  }

  ghost predicate Kept(w0: World, w: World, p0: string, p: string) {
    p0 in w0.files ==> p in w.files && w.files[p] == w0.files[p0]
  }

  /** Every disk source that resolved still resolves, to the same content. */
  ghost predicate Integrity(w0: World, w: World) {
    && SameShape(w0.defs, w.defs)
    && (forall d, i | d in w0.defs && 0 <= i < |w0.defs[d]| && w0.defs[d][i].isDisk ::
          Kept(w0, w, w0.defs[d][i].path, w.defs[d][i].path))
  }

  /** What is known of the entries not yet visited. */
  ghost predicate Ahead(env: Env, w0: World, w: World, rest: seq<Entry>) {
    && SameShape(w0.defs, w.defs)
    && (forall e | e in rest :: PathOf(e) in w.files && PathOf(e) in w0.files && w.files[PathOf(e)] == w0.files[PathOf(e)])
    && (forall e | e in rest && ToRewrite(env, e) :: Def(w.defs, Owner(env, e)) == Captured(env, Owner(env, e)))
    && (forall e, d, i | e in rest && d in w0.defs && 0 <= i < |w0.defs[d]| ::
          w.defs[d][i].path == PathOf(e) ==> w0.defs[d][i].path == PathOf(e))
  }

  ghost predicate Setting(env: Env, w0: World, work: seq<Entry>) {
    env.caps == w0.defs && SlashFree(env) && PlainEntries(work) && Distinct(work)
    && (forall d | d in env.caps :: d in env.doms)
    && NoOverlap(env, work) && OnePerDomain(env, work)
  }

  /** The only disk source naming a file to be renamed is its owner's. */
  lemma OnlyOwnerPoints(env: Env, e: Entry, d: string, i: nat)
    requires Refs(env.doms, env.caps, e.base) == [] || Migratable(env, e)
    requires (forall x | x in env.caps :: x in env.doms) && '/' !in e.base
    requires d in env.caps && i < |env.caps[d]| && env.caps[d][i] == Source(PathOf(e), true)
    ensures Migratable(env, e) && Owner(env, e) == d
  {
    BaseOfJoin(e.dir, e.base);
    assert Mentions(env.caps[d], i, e.base);
    RefsCount(env.doms, env.caps, e.base, d, i, d, i);
  }

  lemma RewrittenWithoutOverlap(env: Env, work: seq<Entry>, e: Entry, now: string)
    requires NoOverlap(env, work) && e in work && Migratable(env, e)
    ensures var srcs := Captured(env, Owner(env, e)); var r := Rewrite(srcs, PathOf(e), now);
            && (forall i | 0 <= i < |srcs| ::
                  r[i] == Source(if srcs[i].path == PathOf(e) then now else srcs[i].path, srcs[i].isDisk))
            && (r != srcs ==> HasSource(srcs, PathOf(e)))
            && (now != PathOf(e) && HasSource(srcs, PathOf(e)) ==> r != srcs)
  {
    var srcs := Captured(env, Owner(env, e));
    var r := Rewrite(srcs, PathOf(e), now);
    forall i | 0 <= i < |srcs|
      ensures r[i] == Source(if srcs[i].path == PathOf(e) then now else srcs[i].path, srcs[i].isDisk)
    {
      if srcs[i].path == PathOf(e) {
        ReplaceWhole(PathOf(e), now);
      } else {
        ReplaceAbsent(srcs[i].path, PathOf(e), now);
      }
    }
    if !HasSource(srcs, PathOf(e)) { assert r == srcs; }
    if HasSource(srcs, PathOf(e)) && now != PathOf(e) {
      var i :| 0 <= i < |srcs| && srcs[i].path == PathOf(e);
      assert r[i] != srcs[i];
    }
  }

  // ---- one entry ----

  ghost predicate Orphan(env: Env, e: Entry) {
    Refs(env.doms, env.caps, e.base) == []
  }

  /** The entry's file was renamed, and its owner's definition replaced by the captured one with the
      new path, unless that text does not mention the old path. */
  ghost predicate Moved(env: Env, w: World, e: Entry, w': World) {
    && Migratable(env, e) && PathOf(e) in w.files
    && var d, n := Owner(env, e), NewPath(env, w, e);
       var srcs := Captured(env, d);
       var srcs' := Rewrite(srcs, PathOf(e), n);
       && w'.files == Renamed(w.files, PathOf(e), n)
       && w'.defs == if srcs' == srcs then w.defs else w.defs[d := srcs']
  }

  lemma UndoRestores(files: map<string, nat>, was: string, now: string)
    requires was in files && now !in files
    ensures Renamed(Renamed(files, was, now), now, was) == files
  {
  }

  /** Everything an entry can do to the world: nothing, an orphan removed, a move with its definition,
      or, when a failed define could not be undone either, a move without one. */
  lemma Outcomes(env: Env, st: State, e: Entry, f: Fault)
    requires '/' !in e.base && SlashFree(env)
    ensures var w' := Step(env, st, e, f).w;
            || w' == st.w
            || (Orphan(env, e) && w' == st.w.(files := st.w.files - {PathOf(e)}))
            || Moved(env, st.w, e, w')
            || (Migratable(env, e) && PathOf(e) in st.w.files && !f.defineOk && !f.undoOk
                && w' == st.w.(files := Renamed(st.w.files, PathOf(e), NewPath(env, st.w, e))))
  {
    if Migratable(env, e) && PathOf(e) in st.w.files {
      NewPathIsFresh(env, st.w, e);
      UndoRestores(st.w.files, PathOf(e), NewPath(env, st.w, e));
    }
  }

  lemma NamedIsRewritten(srcs: seq<Source>, was: string, now: string)
    requires HasSource(srcs, was) && now != was && was != ""
    ensures Rewrite(srcs, was, now) != srcs
  {
    var i :| 0 <= i < |srcs| && srcs[i].path == was;
    ReplaceWhole(was, now);
    assert Rewrite(srcs, was, now)[i] != srcs[i];
  }

  /** A define that fails leaves the world exactly as it was before the entry if the file can be moved
      back, and otherwise the file under its new name and the definition with the old one. */
  lemma FailedDefineRestores(env: Env, st: State, e: Entry, f: Fault)
    requires '/' !in e.base && SlashFree(env) && Migratable(env, e) && !env.dryRun
    requires f.listed && f.renameOk && !f.defineOk
    requires PathOf(e) in st.w.files && HasSource(Captured(env, Owner(env, e)), PathOf(e))
    ensures Step(env, st, e, f) ==
              State(if f.undoOk then st.w else st.w.(files := Renamed(st.w.files, PathOf(e), NewPath(env, st.w, e))),
                    st.stats.(errors := st.stats.errors + 1))
  {
    NewPathIsFresh(env, st.w, e);
    UndoRestores(st.w.files, PathOf(e), NewPath(env, st.w, e));
    NamedIsRewritten(Captured(env, Owner(env, e)), PathOf(e), NewPath(env, st.w, e));
  }

  lemma OrphanKeeps(env: Env, w0: World, w: World, work: seq<Entry>)
    requires work != [] && Setting(env, w0, work) && Ahead(env, w0, w, work) && Integrity(w0, w)
    requires Orphan(env, work[0])
    ensures var w' := w.(files := w.files - {PathOf(work[0])});
            Ahead(env, w0, w', work[1..]) && Integrity(w0, w')
  {
    var e := work[0];
    var w' := w.(files := w.files - {PathOf(e)});
    assert forall x | x in work[1..] :: x in work && x != e;
    forall x | x in work[1..] ensures PathOf(x) != PathOf(e) {
      if PathOf(x) == PathOf(e) { JoinInjective(x, e); }
    }
    forall d, i | d in w0.defs && 0 <= i < |w0.defs[d]| && w0.defs[d][i].isDisk
      ensures Kept(w0, w', w0.defs[d][i].path, w'.defs[d][i].path)
    {
      if w.defs[d][i].path == PathOf(e) { OnlyOwnerPoints(env, e, d, i); }
    }
  }

  /** A move seen source by source: the file goes from `was` to `now`, and so does every source of
      the owner that named it; nothing else changes. */
  ghost predicate SourcesMoved(w: World, w': World, owner: string, was: string, now: string) {
    && was in w.files && now !in w.files && was != now && w'.files == Renamed(w.files, was, now)
    && SameShape(w.defs, w'.defs)
    && (forall d, i | d in w.defs && 0 <= i < |w.defs[d]| ::
          w'.defs[d][i].path == if d == owner && w.defs[d][i].path == was then now else w.defs[d][i].path)
  }

  lemma RewrittenBySource(w: World, w': World, d: string, r: seq<Source>, was: string, now: string)
    requires was in w.files && now !in w.files && w'.files == Renamed(w.files, was, now)
    requires d in w.defs && |r| == |w.defs[d]| && w'.defs == w.defs[d := r]
    requires forall i | 0 <= i < |r| ::
               r[i] == Source(if w.defs[d][i].path == was then now else w.defs[d][i].path, w.defs[d][i].isDisk)
    ensures SourcesMoved(w, w', d, was, now)
  {
  }

  lemma UntouchedBySource(w: World, w': World, d: string, was: string, now: string)
    requires was in w.files && now !in w.files && w'.files == Renamed(w.files, was, now)
    requires d in w.defs && !HasSource(w.defs[d], was) && w'.defs == w.defs
    ensures SourcesMoved(w, w', d, was, now)
  {
  }

  /** A source of the owner names the entry now only if one did in the captured text. */
  lemma StillUnnamed(env: Env, w0: World, w: World, work: seq<Entry>)
    requires work != [] && Setting(env, w0, work) && Ahead(env, w0, w, work) && Migratable(env, work[0]) && Owner(env, work[0]) in w.defs
    ensures HasSource(w.defs[Owner(env, work[0])], PathOf(work[0])) ==> HasSource(Captured(env, Owner(env, work[0])), PathOf(work[0]))
  {
    var e := work[0];
    var d := Owner(env, e);
    if i :| 0 <= i < |w.defs[d]| && w.defs[d][i].path == PathOf(e) {
      assert w0.defs[d][i].path == PathOf(e);
    }
  }

  lemma MovedRewritten(env: Env, w0: World, w: World, work: seq<Entry>, w': World)
    requires work != [] && Setting(env, w0, work) && Ahead(env, w0, w, work)
    requires Moved(env, w, work[0], w') && ToRewrite(env, work[0])
    ensures SourcesMoved(w, w', Owner(env, work[0]), PathOf(work[0]), NewPath(env, w, work[0]))
  {
    var e := work[0];
    var d, n := Owner(env, e), NewPath(env, w, e);
    NewPathIsFresh(env, w, e);
    RewrittenWithoutOverlap(env, work, e, n);
    OwnerListed(env, e);
    assert w.defs[d] == Captured(env, d);
    RewrittenBySource(w, w', d, Rewrite(Captured(env, d), PathOf(e), n), PathOf(e), n);
  }

  lemma MovedBySource(env: Env, w0: World, w: World, work: seq<Entry>, w': World)
    requires work != [] && Setting(env, w0, work) && Ahead(env, w0, w, work)
    requires Moved(env, w, work[0], w')
    ensures SourcesMoved(w, w', Owner(env, work[0]), PathOf(work[0]), NewPath(env, w, work[0]))
    ensures !ToRewrite(env, work[0]) ==> w'.defs == w.defs
  {
    if ToRewrite(env, work[0]) {
      MovedRewritten(env, w0, w, work, w');
    } else {
      var e := work[0];
      NewPathIsFresh(env, w, e);
      RewrittenWithoutOverlap(env, work, e, NewPath(env, w, e));
      OwnerListed(env, e);
      StillUnnamed(env, w0, w, work);
      UntouchedBySource(w, w', Owner(env, e), PathOf(e), NewPath(env, w, e));
    }
  }

  /** The other entries' files stay where they are. */
  lemma MovedKeepsFiles(env: Env, work: seq<Entry>, files: map<string, nat>, now: string, x: Entry)
    requires work != [] && PlainEntries(work) && Distinct(work) && x in work[1..]
    requires PathOf(x) in files && now !in files && PathOf(work[0]) in files
    ensures x in work && x != work[0] && PathOf(x) != PathOf(work[0]) && PathOf(x) != now
    ensures var moved := Renamed(files, PathOf(work[0]), now); PathOf(x) in moved && moved[PathOf(x)] == files[PathOf(x)]
  {
    if PathOf(x) == PathOf(work[0]) { JoinInjective(x, work[0]); }
  }

  lemma MovedKeepsAhead(env: Env, w0: World, w: World, work: seq<Entry>, w': World, was: string, now: string)
    requires work != [] && Setting(env, w0, work) && Ahead(env, w0, w, work)
    requires Migratable(env, work[0]) && was == PathOf(work[0])
    requires SourcesMoved(w, w', Owner(env, work[0]), was, now)
    requires !ToRewrite(env, work[0]) ==> w'.defs == w.defs
    ensures Ahead(env, w0, w', work[1..])
  {
    var e := work[0];
    forall x | x in work[1..] ensures x in work && PathOf(x) != was && PathOf(x) != now && x != e
      ensures PathOf(x) in w'.files && w'.files[PathOf(x)] == w.files[PathOf(x)]
    {
      MovedKeepsFiles(env, work, w.files, now, x);
    }
    forall x | x in work[1..] && ToRewrite(env, x)
      ensures Def(w'.defs, Owner(env, x)) == Captured(env, Owner(env, x))
    {
      OwnerListed(env, x);
      var d := Owner(env, x);
      if ToRewrite(env, e) {
        assert d != Owner(env, e);
        assert w'.defs[d] == w.defs[d];
      }
    }
  }

  lemma MovedKeepsIntegrity(env: Env, w0: World, w: World, work: seq<Entry>, w': World, was: string, now: string)
    requires work != [] && Setting(env, w0, work) && Ahead(env, w0, w, work) && Integrity(w0, w)
    requires Migratable(env, work[0]) && was == PathOf(work[0])
    requires SourcesMoved(w, w', Owner(env, work[0]), was, now)
    ensures Integrity(w0, w')
  {
    forall d, i | d in w0.defs && 0 <= i < |w0.defs[d]| && w0.defs[d][i].isDisk
      ensures Kept(w0, w', w0.defs[d][i].path, w'.defs[d][i].path)
    {
      assert Kept(w0, w, w0.defs[d][i].path, w.defs[d][i].path);
      if w.defs[d][i].path == was {
        assert w0.defs[d][i] == Source(was, true);
        OnlyOwnerPoints(env, work[0], d, i);
      }
    }
  }

  lemma StepKeeps(env: Env, w0: World, st: State, work: seq<Entry>, f: Fault)
    requires work != [] && Setting(env, w0, work) && f.undoOk
    requires Ahead(env, w0, st.w, work) && Integrity(w0, st.w)
    ensures Ahead(env, w0, Step(env, st, work[0], f).w, work[1..])
    ensures Integrity(w0, Step(env, st, work[0], f).w)
  {
    Outcomes(env, st, work[0], f);
    var w' := Step(env, st, work[0], f).w;
    if Moved(env, st.w, work[0], w') {
      MovedBySource(env, w0, st.w, work, w');
      MovedKeepsAhead(env, w0, st.w, work, w', PathOf(work[0]), NewPath(env, st.w, work[0]));
      MovedKeepsIntegrity(env, w0, st.w, work, w', PathOf(work[0]), NewPath(env, st.w, work[0]));
    } else if w' != st.w {
      OrphanKeeps(env, w0, st.w, work);
    } else {
      assert forall x | x in work[1..] :: x in work;
    }
  }

  lemma SettingOfTail(env: Env, w0: World, work: seq<Entry>)
    requires work != [] && Setting(env, w0, work)
    ensures Setting(env, w0, work[1..])
  {
    assert forall x | x in work[1..] :: x in work;
  }
}
