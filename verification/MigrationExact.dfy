/** Exactly when the migration loses no disk, over every pattern of failures. */
module MigrationExact {
  import opened DiskMigration
  import opened MigrationSafety
  import opened MigrationResults

  // ---- what can go wrong ----

  ghost predicate HasDisk(srcs: seq<Source>, path: string) {
    exists k: nat :: k < |srcs| && srcs[k] == Source(path, true)
  }

  /** The entry is a disk of the one domain that mentions it. */
  ghost predicate OwnDisk(env: Env, e: Entry) {
    Migratable(env, e) && HasDisk(Captured(env, Owner(env, e)), PathOf(e))
  }

  /** Renaming the entry rewrites its owner's definition. */
  ghost predicate Redefines(env: Env, e: Entry) {
    Migratable(env, e) && exists i: nat :: i < |Captured(env, Owner(env, e))| && Occurs(PathOf(e), Captured(env, Owner(env, e))[i].path)
  }

  /** `srcs[j]` is another disk with a file, whose path the old path occurs in. */
  ghost predicate Overlapped(w: World, srcs: seq<Source>, path: string, j: nat) {
    j < |srcs| && srcs[j].isDisk && srcs[j].path in w.files && srcs[j].path != path && Occurs(path, srcs[j].path)
  }

  ghost predicate Overlaps(env: Env, w: World, e: Entry) {
    Migratable(env, e) && exists j: nat :: Overlapped(w, Captured(env, Owner(env, e)), PathOf(e), j)
  }

  /** A disk is renamed, and a later entry redefines the same domain from the captured text. */
  ghost predicate Clashes(env: Env, first: Entry, later: Entry) {
    OwnDisk(env, first) && Redefines(env, later) && Owner(env, first) == Owner(env, later)
  }

  /** What a caller can check before the first rename. */
  ghost predicate NoHarm(env: Env, w: World, work: seq<Entry>) {
    && (forall e | e in work :: !Overlaps(env, w, e))
    && (forall i, j | 0 <= i < j < |work| :: !Clashes(env, work[i], work[j]))
  }

  /** The define fails and so does moving the file back. */
  ghost predicate Strands(env: Env, e: Entry, f: Fault) {
    OwnDisk(env, e) && f.listed && f.renameOk && !f.defineOk && !f.undoOk
  }

  ghost predicate AnyStrands(env: Env, work: seq<Entry>, faults: seq<Fault>)
    requires |faults| == |work|
  {
    exists i :: 0 <= i < |work| && Strands(env, work[i], faults[i])
  }

  // ---- what is kept while nothing strands ----

  /** A disk source that had its file. */
  ghost predicate Live(w0: World, d: string, i: nat) {
    d in w0.defs && i < |w0.defs[d]| && w0.defs[d][i].isDisk && w0.defs[d][i].path in w0.files
  }

  /** A live source still means its file; it has changed only if a visited entry was that disk, and it
      means none of the files ahead unless it did from the start. */
  ghost predicate SourceSound(env: Env, w0: World, w: World, done: seq<Entry>, rest: seq<Entry>, d: string, i: nat)
    requires Live(w0, d, i) && d in w.defs && i < |w.defs[d]|
  {
    var was, now := w0.defs[d][i].path, w.defs[d][i].path;
    && now in w.files && w.files[now] == w0.files[was]
    && (now != was ==> (exists x :: x in done && OwnDisk(env, x) && Owner(env, x) == d) && forall e | e in rest :: PathOf(e) != now)
  }

  ghost predicate Sound(env: Env, w0: World, w: World, done: seq<Entry>, rest: seq<Entry>) {
    && SameShape(w0.defs, w.defs)
    && (forall e | e in rest :: PathOf(e) in w.files)
    && (forall d, i: nat | Live(w0, d, i) :: SourceSound(env, w0, w, done, rest, d, i))
  }

  /** The fixed part of a run. */
  ghost predicate Ground(env: Env, w0: World, work: seq<Entry>) {
    && env.caps == w0.defs && SlashFree(env) && PlainEntries(work) && Distinct(work)
    && (forall d | d in env.caps :: d in env.doms) && (forall e | e in work :: PathOf(e) in w0.files)
  }

  lemma SoundIsIntegral(env: Env, w0: World, w: World, done: seq<Entry>)
    requires Sound(env, w0, w, done, [])
    ensures Integrity(w0, w)
  {
    forall d, i | d in w0.defs && 0 <= i < |w0.defs[d]| && w0.defs[d][i].isDisk
      ensures Kept(w0, w, w0.defs[d][i].path, w.defs[d][i].path)
    {
      if w0.defs[d][i].path in w0.files {
        assert Live(w0, d, i) && SourceSound(env, w0, w, done, [], d, i);
      }
    }
  }

  /** A live source that means the file of the next entry is that entry's own disk. */
  lemma NextIsOwn(env: Env, w0: World, w: World, done: seq<Entry>, rest: seq<Entry>, d: string, i: nat)
    requires rest != [] && Ground(env, w0, done + rest) && Sound(env, w0, w, done, rest) && Live(w0, d, i)
    requires w.defs[d][i].path == PathOf(rest[0]) && (Orphan(env, rest[0]) || Migratable(env, rest[0]))
    ensures OwnDisk(env, rest[0]) && Owner(env, rest[0]) == d && w0.defs[d][i].path == PathOf(rest[0])
  {
    assert rest[0] in rest && rest[0] in done + rest;
    assert SourceSound(env, w0, w, done, rest, d, i);
    OnlyOwnerPoints(env, rest[0], d, i);
  }

  lemma NextPathsDiffer(env: Env, w0: World, done: seq<Entry>, rest: seq<Entry>)
    requires rest != [] && Ground(env, w0, done + rest)
    ensures forall x | x in rest[1..] :: x in rest && PathOf(x) != PathOf(rest[0])
    ensures (done + [rest[0]]) + rest[1..] == done + rest
  {
    var e := rest[0];
    var all := done + rest;
    assert rest == [e] + rest[1..];
    forall x | x in rest[1..] ensures x in rest && PathOf(x) != PathOf(e) {
      var i :| 0 <= i < |rest[1..]| && rest[1..][i] == x;
      assert all[|done|] == e && all[|done| + 1 + i] == x;
      assert x in all && e in all;
      if PathOf(x) == PathOf(e) { JoinInjective(x, e); }
    }
  }

  /** Removing or renaming the file of an entry that no live source means keeps everything sound. */
  lemma FileGone(env: Env, w0: World, w: World, done: seq<Entry>, rest: seq<Entry>, w': World)
    requires rest != [] && Ground(env, w0, done + rest) && Sound(env, w0, w, done, rest)
    requires (Orphan(env, rest[0]) || Migratable(env, rest[0])) && !OwnDisk(env, rest[0])
    requires w'.defs == w.defs && forall p | p in w.files && p != PathOf(rest[0]) :: p in w'.files && w'.files[p] == w.files[p]
    ensures Sound(env, w0, w', done + [rest[0]], rest[1..])
  {
    NextPathsDiffer(env, w0, done, rest);
    forall d, i: nat | Live(w0, d, i) ensures SourceSound(env, w0, w', done + [rest[0]], rest[1..], d, i) {
      assert SourceSound(env, w0, w, done, rest, d, i);
      if w.defs[d][i].path == PathOf(rest[0]) { NextIsOwn(env, w0, w, done, rest, d, i); }
    }
  }

  lemma Untouched(env: Env, w0: World, w: World, done: seq<Entry>, rest: seq<Entry>)
    requires rest != [] && Ground(env, w0, done + rest) && Sound(env, w0, w, done, rest)
    ensures Sound(env, w0, w, done + [rest[0]], rest[1..])
  {
    NextPathsDiffer(env, w0, done, rest);
    forall d, i: nat | Live(w0, d, i) ensures SourceSound(env, w0, w, done + [rest[0]], rest[1..], d, i) {
      assert SourceSound(env, w0, w, done, rest, d, i);
    }
  }

  /** The next entry's owner still has its captured paths, if renaming the entry redefines it. */
  lemma NotYetRenamed(env: Env, w0: World, w: World, done: seq<Entry>, rest: seq<Entry>, i: nat)
    requires rest != [] && Ground(env, w0, done + rest) && Sound(env, w0, w, done, rest) && NoHarm(env, w0, done + rest)
    requires Redefines(env, rest[0]) && Live(w0, Owner(env, rest[0]), i)
    ensures w.defs[Owner(env, rest[0])][i].path == w0.defs[Owner(env, rest[0])][i].path
  {
    var d := Owner(env, rest[0]);
    assert SourceSound(env, w0, w, done, rest, d, i);
    if w.defs[d][i].path != w0.defs[d][i].path {
      var x :| x in done && OwnDisk(env, x) && Owner(env, x) == d;
      var k :| 0 <= k < |done| && done[k] == x;
      assert (done + rest)[k] == x && (done + rest)[|done|] == rest[0];
      assert Clashes(env, x, rest[0]);
    }
  }

  /** A live source of a redefined owner: redirected if it was the old path, otherwise as captured. */
  lemma OwnerPath(env: Env, w0: World, w: World, e: Entry, i: nat)
    requires env.caps == w0.defs && SlashFree(env) && '/' !in e.base && Redefines(env, e) && !Overlaps(env, w0, e)
    requires Live(w0, Owner(env, e), i)
    ensures var n := NewPath(env, w, e);
            var r := Rewrite(Captured(env, Owner(env, e)), PathOf(e), n);
            var was := w0.defs[Owner(env, e)][i].path;
            i < |r| && r[i].path == if was == PathOf(e) then n else was
  {
    var was := w0.defs[Owner(env, e)][i].path;
    NewPathIsFresh(env, w, e);
    SourceRewritten(was, PathOf(e), NewPath(env, w, e));
    if was != PathOf(e) { assert !Overlapped(w0, Captured(env, Owner(env, e)), PathOf(e), i); }
  }

  lemma OwnDiskMoved(env: Env, w0: World, w: World, done: seq<Entry>, rest: seq<Entry>, w': World, i: nat)
    requires rest != [] && Ground(env, w0, done + rest) && Sound(env, w0, w, done, rest) && Moved(env, w, rest[0], w')
    requires OwnDisk(env, rest[0])
    requires var d := Owner(env, rest[0]);
             && Live(w0, d, i) && w0.defs[d][i].path == PathOf(rest[0]) && w.files[PathOf(rest[0])] == w0.files[PathOf(rest[0])]
             && d in w'.defs && i < |w'.defs[d]| && w'.defs[d][i].path == NewPath(env, w, rest[0])
    ensures SourceSound(env, w0, w', done + [rest[0]], rest[1..], Owner(env, rest[0]), i)
  {
    var e := rest[0];
    assert e in rest && e in done + rest && e in done + [e];
    NewPathIsFresh(env, w, e);
    NextPathsDiffer(env, w0, done, rest);
  }

  lemma OtherDiskStays(env: Env, w0: World, w: World, e: Entry, w': World, done': seq<Entry>, rest': seq<Entry>, d: string, i: nat)
    requires SlashFree(env) && '/' !in e.base && Moved(env, w, e, w') && Live(w0, d, i)
    requires var was := w0.defs[d][i].path;
             && was != PathOf(e) && was in w.files && w.files[was] == w0.files[was]
             && d in w'.defs && i < |w'.defs[d]| && w'.defs[d][i].path == was
    ensures SourceSound(env, w0, w', done', rest', d, i)
  {
    NewPathIsFresh(env, w, e);
  }

  /** The live source of the next entry's owner after its definition was rewritten. */
  lemma OwnerSource(env: Env, w0: World, w: World, done: seq<Entry>, rest: seq<Entry>, w': World, i: nat)
    requires rest != [] && Ground(env, w0, done + rest) && Sound(env, w0, w, done, rest) && NoHarm(env, w0, done + rest)
    requires Moved(env, w, rest[0], w') && Redefines(env, rest[0]) && Live(w0, Owner(env, rest[0]), i)
    requires w'.defs == w.defs[Owner(env, rest[0]) := Rewrite(Captured(env, Owner(env, rest[0])), PathOf(rest[0]), NewPath(env, w, rest[0]))]
    ensures Owner(env, rest[0]) in w'.defs && i < |w'.defs[Owner(env, rest[0])]|
    ensures SourceSound(env, w0, w', done + [rest[0]], rest[1..], Owner(env, rest[0]), i)
  {
    var e := rest[0];
    var d := Owner(env, e);
    assert e in rest && e in done + rest;
    OwnerPath(env, w0, w, e, i);
    NotYetRenamed(env, w0, w, done, rest, i);
    assert SourceSound(env, w0, w, done, rest, d, i);
    if w0.defs[d][i].path == PathOf(e) {
      IsOwnDisk(env, w0, e, i);
      OwnDiskMoved(env, w0, w, done, rest, w', i);
    } else {
      OtherDiskStays(env, w0, w, e, w', done + [e], rest[1..], d, i);
    }
  }

  lemma IsOwnDisk(env: Env, w0: World, e: Entry, i: nat)
    requires env.caps == w0.defs && Migratable(env, e) && Live(w0, Owner(env, e), i)
    requires w0.defs[Owner(env, e)][i].path == PathOf(e)
    ensures OwnDisk(env, e)
  {
    assert Captured(env, Owner(env, e))[i] == Source(PathOf(e), true);
  }

  /** Redefining an owner keeps the shape of the definitions. */
  lemma MovedShape(env: Env, w0: World, w: World, e: Entry, w': World)
    requires env.caps == w0.defs && SameShape(w0.defs, w.defs) && Moved(env, w, e, w')
    ensures SameShape(w0.defs, w'.defs)
  {
    OwnerListed(env, e);
  }

  lemma RedefinesIff(env: Env, w: World, e: Entry)
    requires Migratable(env, e) && '/' !in e.base && SlashFree(env)
    ensures Redefines(env, e) <==>
              Rewrite(Captured(env, Owner(env, e)), PathOf(e), NewPath(env, w, e)) != Captured(env, Owner(env, e))
  {
    var srcs, p, n := Captured(env, Owner(env, e)), PathOf(e), NewPath(env, w, e);
    var r := Rewrite(srcs, p, n);
    NewPathIsFresh(env, w, e);
    forall i: nat | i < |srcs| ensures Occurs(p, srcs[i].path) <==> r[i] != srcs[i] {
      SourceRewritten(srcs[i].path, p, n);
    }
    if Redefines(env, e) {
      var i: nat :| i < |srcs| && Occurs(p, srcs[i].path);
      assert r[i] != srcs[i];
    }
  }

  /** A live source of another domain does not notice. */
  lemma ForeignSource(env: Env, w0: World, w: World, done: seq<Entry>, rest: seq<Entry>, w': World, d: string, i: nat)
    requires rest != [] && Ground(env, w0, done + rest) && Sound(env, w0, w, done, rest) && Live(w0, d, i)
    requires Moved(env, w, rest[0], w') && d != Owner(env, rest[0]) && SameShape(w0.defs, w'.defs)
    ensures SourceSound(env, w0, w', done + [rest[0]], rest[1..], d, i)
  {
    var e := rest[0];
    assert e in rest && e in done + rest;
    NewPathIsFresh(env, w, e);
    NextPathsDiffer(env, w0, done, rest);
    assert SourceSound(env, w0, w, done, rest, d, i);
    if w.defs[d][i].path == PathOf(e) { NextIsOwn(env, w0, w, done, rest, d, i); }
  }

  lemma RedefinedIsSound(env: Env, w0: World, w: World, done: seq<Entry>, rest: seq<Entry>, w': World)
    requires rest != [] && Ground(env, w0, done + rest) && Sound(env, w0, w, done, rest) && NoHarm(env, w0, done + rest)
    requires Moved(env, w, rest[0], w') && Redefines(env, rest[0])
    requires w'.defs == w.defs[Owner(env, rest[0]) := Rewrite(Captured(env, Owner(env, rest[0])), PathOf(rest[0]), NewPath(env, w, rest[0]))]
    ensures Sound(env, w0, w', done + [rest[0]], rest[1..])
  {
    var e := rest[0];
    NextPathsDiffer(env, w0, done, rest);
    MovedShape(env, w0, w, e, w');
    forall d, i: nat | Live(w0, d, i) ensures SourceSound(env, w0, w', done + [e], rest[1..], d, i) {
      if d == Owner(env, e) {
        OwnerSource(env, w0, w, done, rest, w', i);
      } else {
        ForeignSource(env, w0, w, done, rest, w', d, i);
      }
    }
  }

  lemma MoveIsSound(env: Env, w0: World, w: World, done: seq<Entry>, rest: seq<Entry>, w': World)
    requires rest != [] && Ground(env, w0, done + rest) && Sound(env, w0, w, done, rest) && NoHarm(env, w0, done + rest)
    requires Moved(env, w, rest[0], w')
    ensures Sound(env, w0, w', done + [rest[0]], rest[1..])
  {
    var e := rest[0];
    assert e in rest && e in done + rest;
    RedefinesIff(env, w, e);
    if Redefines(env, e) {
      RedefinedIsSound(env, w0, w, done, rest, w');
    } else {
      if OwnDisk(env, e) { DiskIsMentioned(env, e); }
      NewPathIsFresh(env, w, e);
      FileGone(env, w0, w, done, rest, w');
    }
  }

  lemma DiskIsMentioned(env: Env, e: Entry)
    requires OwnDisk(env, e)
    ensures Redefines(env, e)
  {
    var srcs := Captured(env, Owner(env, e));
    var k: nat :| k < |srcs| && srcs[k] == Source(PathOf(e), true);
    OccursInItself(PathOf(e));
    assert Occurs(PathOf(e), srcs[k].path);
  }

  lemma StepIsSound(env: Env, w0: World, st: State, done: seq<Entry>, rest: seq<Entry>, f: Fault)
    requires rest != [] && Ground(env, w0, done + rest) && Sound(env, w0, st.w, done, rest) && NoHarm(env, w0, done + rest)
    requires !Strands(env, rest[0], f)
    ensures Sound(env, w0, Step(env, st, rest[0], f).w, done + [rest[0]], rest[1..])
  {
    var e := rest[0];
    var w' := Step(env, st, e, f).w;
    assert e in rest && e in done + rest;
    Outcomes(env, st, e, f);
    if w' == st.w {
      Untouched(env, w0, st.w, done, rest);
    } else if Moved(env, st.w, e, w') {
      MoveIsSound(env, w0, st.w, done, rest, w');
    } else {
      if Migratable(env, e) { NewPathIsFresh(env, st.w, e); }
      FileGone(env, w0, st.w, done, rest, w');
    }
  }

  // ---- a stranded file is lost ----

  lemma StepInjective(env: Env, st: State, e: Entry, f: Fault)
    requires '/' !in e.base && SlashFree(env) && Injective(st.w.files)
    ensures Injective(Step(env, st, e, f).w.files)
  {
    Outcomes(env, st, e, f);
    if Migratable(env, e) { NewPathIsFresh(env, st.w, e); }
  }

  lemma StrandedStays(env: Env, w0: World, st: State, e: Entry, f: Fault, d: string, k: nat, was: string, loc: string)
    requires env.caps == w0.defs && SlashFree(env) && '/' !in e.base && PathOf(e) != loc
    requires Stranded(w0, st.w, d, k, was, loc) && st.w.defs[d][k].path == was
    requires !(Redefines(env, e) && Owner(env, e) == d)
    ensures var w' := Step(env, st, e, f).w; Stranded(w0, w', d, k, was, loc) && w'.defs[d][k].path == was
  {
    var w' := Step(env, st, e, f).w;
    Outcomes(env, st, e, f);
    StepInjective(env, st, e, f);
    if Moved(env, st.w, e, w') {
      MoveKeepsStranded(env, w0, st.w, e, w', d, k, was, loc);
      RedefinesIff(env, st.w, e);
    } else if Migratable(env, e) {
      NewPathIsFresh(env, st.w, e);
    }
  }

  lemma {:induction false} StrandedIsLost(env: Env, w0: World, st: State, rest: seq<Entry>, faults: seq<Fault>, d: string, k: nat, was: string, loc: string)
    requires |faults| == |rest| && env.caps == w0.defs && SlashFree(env) && PlainEntries(rest)
    requires Stranded(w0, st.w, d, k, was, loc) && st.w.defs[d][k].path == was
    requires forall x | x in rest :: PathOf(x) != loc && !(Redefines(env, x) && Owner(env, x) == d)
    ensures !Integrity(w0, Run(env, st, rest, faults).w)
    decreases |rest|
  {
    if rest == [] {
      StrandedLoses(w0, st.w, d, k, was, loc);
    } else {
      assert forall x | x in rest[1..] :: x in rest;
      StrandedStays(env, w0, st, rest[0], faults[0], d, k, was, loc);
      StrandedIsLost(env, w0, Step(env, st, rest[0], faults[0]), rest[1..], faults[1..], d, k, was, loc);
    }
  }

  /** The entry strands: its file is under the new name, its definition still says the old one. */
  lemma StrandsNow(env: Env, w0: World, st: State, done: seq<Entry>, rest: seq<Entry>, f: Fault) returns (k: nat, loc: string)
    requires rest != [] && Ground(env, w0, done + rest) && Sound(env, w0, st.w, done, rest) && NoHarm(env, w0, done + rest)
    requires !env.dryRun && Injective(st.w.files) && Strands(env, rest[0], f)
    ensures var d, w' := Owner(env, rest[0]), Step(env, st, rest[0], f).w;
            Stranded(w0, w', d, k, PathOf(rest[0]), loc) && w'.defs[d][k].path == PathOf(rest[0])
    ensures forall x | x in rest[1..] :: PathOf(x) != loc
  {
    var e := rest[0];
    var d := Owner(env, e);
    assert e in rest && e in done + rest;
    k :| k < |Captured(env, d)| && Captured(env, d)[k] == Source(PathOf(e), true);
    loc := NewPath(env, st.w, e);
    OwnerListed(env, e);
    DiskIsMentioned(env, e);
    RedefinesIff(env, st.w, e);
    NewPathIsFresh(env, st.w, e);
    StepInjective(env, st, e, f);
    assert Live(w0, d, k) && SourceSound(env, w0, st.w, done, rest, d, k);
    NotYetRenamed(env, w0, st.w, done, rest, k);
  }

  lemma LaterLeavesOwner(env: Env, w0: World, done: seq<Entry>, rest: seq<Entry>)
    requires rest != [] && NoHarm(env, w0, done + rest) && OwnDisk(env, rest[0])
    ensures forall x | x in rest[1..] :: !(Redefines(env, x) && Owner(env, x) == Owner(env, rest[0]))
  {
    forall x | x in rest[1..] ensures !(Redefines(env, x) && Owner(env, x) == Owner(env, rest[0])) {
      var i :| 0 <= i < |rest[1..]| && rest[1..][i] == x;
      var all := done + rest;
      assert all[|done|] == rest[0] && all[|done| + 1 + i] == x;
      assert !Clashes(env, all[|done|], all[|done| + 1 + i]);
    }
  }

  lemma StrandingLoses(env: Env, w0: World, st: State, done: seq<Entry>, rest: seq<Entry>, faults: seq<Fault>)
    requires |faults| == |rest| && rest != [] && Ground(env, w0, done + rest) && Sound(env, w0, st.w, done, rest)
    requires NoHarm(env, w0, done + rest) && !env.dryRun && Injective(st.w.files) && Strands(env, rest[0], faults[0])
    ensures !Integrity(w0, Run(env, st, rest, faults).w)
  {
    var k, loc := StrandsNow(env, w0, st, done, rest, faults[0]);
    LaterLeavesOwner(env, w0, done, rest);
    assert forall x | x in rest[1..] :: x in done + rest;
    StrandedIsLost(env, w0, Step(env, st, rest[0], faults[0]), rest[1..], faults[1..], Owner(env, rest[0]), k, PathOf(rest[0]), loc);
  }

  lemma AnyStrandsTail(env: Env, rest: seq<Entry>, faults: seq<Fault>)
    requires |faults| == |rest| && rest != []
    ensures AnyStrands(env, rest, faults) <==> Strands(env, rest[0], faults[0]) || AnyStrands(env, rest[1..], faults[1..])
  {
    if i :| 0 <= i < |rest| && Strands(env, rest[i], faults[i]) {
      if i > 0 { assert Strands(env, rest[1..][i - 1], faults[1..][i - 1]); }
    }
    if i :| 0 <= i < |rest[1..]| && Strands(env, rest[1..][i], faults[1..][i]) {
      assert Strands(env, rest[i + 1], faults[i + 1]);
    }
  }

  lemma {:induction false} RunExact(env: Env, w0: World, st: State, done: seq<Entry>, rest: seq<Entry>, faults: seq<Fault>)
    requires |faults| == |rest| && Ground(env, w0, done + rest) && Sound(env, w0, st.w, done, rest) && NoHarm(env, w0, done + rest)
    ensures !AnyStrands(env, rest, faults) ==> Integrity(w0, Run(env, st, rest, faults).w)
    ensures !env.dryRun && Injective(st.w.files) && AnyStrands(env, rest, faults) ==> !Integrity(w0, Run(env, st, rest, faults).w)
    decreases |rest|
  {
    if rest == [] {
      SoundIsIntegral(env, w0, st.w, done);
    } else {
      AnyStrandsTail(env, rest, faults);
      NextPathsDiffer(env, w0, done, rest);
      assert rest[0] in done + rest;
      StepInjectiveIf(env, st, rest[0], faults[0]);
      if !Strands(env, rest[0], faults[0]) {
        StepIsSound(env, w0, st, done, rest, faults[0]);
        RunExact(env, w0, Step(env, st, rest[0], faults[0]), done + [rest[0]], rest[1..], faults[1..]);
      } else if !env.dryRun && Injective(st.w.files) {
        StrandingLoses(env, w0, st, done, rest, faults);
      }
    }
  }

  lemma StepInjectiveIf(env: Env, st: State, e: Entry, f: Fault)
    requires '/' !in e.base && SlashFree(env)
    ensures Injective(st.w.files) ==> Injective(Step(env, st, e, f).w.files)
  {
    if Injective(st.w.files) { StepInjective(env, st, e, f); }
  }

  lemma SoundAtStart(env: Env, w: World, work: seq<Entry>)
    requires Start(env, w, work)
    ensures Ground(env, w, [] + work) && Sound(env, w, w, [], work) && [] + work == work
  {
    assert [] + work == work;
    forall d, i: nat | Live(w, d, i) ensures SourceSound(env, w, w, [], work, d, i) {}
  }

  /** Main result: whatever fails, in whatever pattern, no domain loses a disk, unless a failed define
      could not be undone; the conditions can be checked before the first rename. */
  lemma MigrationKeepsDisks(env: Env, w: World, stats: Stats, work: seq<Entry>, faults: seq<Fault>)
    requires |faults| == |work| && Start(env, w, work) && NoHarm(env, w, work) && !AnyStrands(env, work, faults)
    ensures Integrity(w, Run(env, State(w, stats), work, faults).w)
  {
    SoundAtStart(env, w, work);
    RunExact(env, w, State(w, stats), [], work, faults);
  }

  // ---- the conditions are necessary ----

  /** Faults under which an entry is left alone. */
  const IDLE: Fault := Fault(false, false, true, true, false)

  function Idle(n: nat): seq<Fault> { seq(n, _ => IDLE) }

  lemma {:induction false} RunIdle(env: Env, st: State, work: seq<Entry>)
    ensures Run(env, st, work, Idle(|work|)).w == st.w
    decreases |work|
  {
    if work != [] {
      assert Idle(|work|)[0] == IDLE && Idle(|work|)[1..] == Idle(|work[1..]|);
      RunIdle(env, Step(env, st, work[0], IDLE), work[1..]);
    }
  }

  /** Only the entries at `i` and, if it is later, `j` are let through. */
  function Only(n: nat, i: nat, j: nat): seq<Fault> {
    seq(n, k => if k == i || k == j then GOOD else IDLE)
  }

  lemma OnlyNeverStrands(env: Env, work: seq<Entry>, i: nat, j: nat)
    ensures !AnyStrands(env, work, Only(|work|, i, j))
  {
  }

  lemma OnlySplits(n: nat, i: nat, m: nat, j: nat)
    requires i < m <= j < n
    ensures Only(n, i, j) == Only(m, i, i) + Only(n - m, j - m, j - m)
  {
  }

  lemma RunOne(env: Env, st: State, work: seq<Entry>, i: nat) returns (st1: State)
    requires i < |work|
    ensures st1.w == st.w && Run(env, st, work, Only(|work|, i, i)).w == Step(env, st1, work[i], GOOD).w
  {
    var a, b := work[..i], work[i + 1..];
    st1 := Run(env, st, a, Idle(i));
    var st2 := Step(env, st1, work[i], GOOD);
    RunIdle(env, st, a);
    RunIdle(env, st2, b);
    assert work == a + ([work[i]] + b) && Only(|work|, i, i) == Idle(i) + ([GOOD] + Idle(|b|));
    RunSplit(env, st, a, Idle(i), [work[i]] + b, [GOOD] + Idle(|b|));
    assert ([work[i]] + b)[1..] == b && ([GOOD] + Idle(|b|))[1..] == Idle(|b|);
    assert Run(env, st1, [work[i]] + b, [GOOD] + Idle(|b|)) == Run(env, st2, b, Idle(|b|));
  }

  lemma RunTwo(env: Env, st: State, work: seq<Entry>, i: nat, j: nat) returns (st1: State, st2: State)
    requires i < j < |work|
    ensures st1.w == st.w && st2.w == Step(env, st1, work[i], GOOD).w
    ensures Run(env, st, work, Only(|work|, i, j)).w == Step(env, st2, work[j], GOOD).w
  {
    var m := i + 1;
    var a, b := work[..m], work[m..];
    var f, g := Only(m, i, i), Only(|work| - m, j - m, j - m);
    assert work == a + b;
    OnlySplits(|work|, i, m, j);
    RunSplit(env, st, a, f, b, g);
    st1 := RunOne(env, st, a, i);
    st2 := RunOne(env, Run(env, st, a, f), b, j - m);
  }

  /** The overlapped disk's path is rewritten although its file stays where it is. */
  lemma OverlapLoses(env: Env, w: World, st: State, work: seq<Entry>, e: Entry)
    requires Start(env, w, work) && Injective(w.files) && !env.dryRun && e in work && Overlaps(env, w, e) && st.w == w
    ensures !Integrity(w, Step(env, st, e, GOOD).w)
  {
    var d := Owner(env, e);
    var j: nat :| Overlapped(w, Captured(env, d), PathOf(e), j);
    var n := NewPath(env, w, e);
    var w' := Step(env, st, e, GOOD).w;
    OwnerListed(env, e);
    NewPathIsFresh(env, w, e);
    RedefinesIff(env, w, e);
    StepInjective(env, st, e, GOOD);
    var q := w.defs[d][j].path;
    SourceRewritten(q, PathOf(e), n);
    assert Redefines(env, e);
    assert w'.defs[d][j].path == ReplaceAll(q, PathOf(e), n) != q;
    assert q in w'.files && w'.files[q] == w.files[q];
    assert !Kept(w, w', q, w'.defs[d][j].path);
  }

  lemma NewPathIsNotOld(env: Env, w: World, e: Entry, later: Entry)
    requires Migratable(env, e) && Migratable(env, later) && Owner(env, e) == Owner(env, later)
    requires '/' !in e.base && '/' !in later.base && SlashFree(env)
    ensures NewPath(env, w, later) != PathOf(e)
  {
    NewPathIsFresh(env, w, later);
    BaseOfJoin(e.dir, e.base);
  }

  lemma LaterMoves(env: Env, w: World, work: seq<Entry>, st1: State, st2: State, e: Entry, later: Entry)
    requires Start(env, w, work) && !env.dryRun && e in work && later in work && e != later
    requires Migratable(env, e) && Migratable(env, later) && Owner(env, e) == Owner(env, later)
    requires st1.w == w && st2.w == Step(env, st1, e, GOOD).w
    ensures Moved(env, w, e, st2.w) && Moved(env, st2.w, later, Step(env, st2, later, GOOD).w)
    ensures PathOf(e) !in Step(env, st2, later, GOOD).w.files
  {
    NewPathIsFresh(env, w, e);
    GoodStep(env, st1, e);
    if PathOf(e) == PathOf(later) { JoinInjective(e, later); }
    GoodStep(env, st2, later);
    NewPathIsNotOld(env, st2.w, e, later);
  }

  /** Rewriting the later entry's path leaves the first one's alone. */
  lemma OldPathComesBack(env: Env, w: World, w1: World, w2: World, e: Entry, later: Entry, k: nat)
    requires env.caps == w.defs && Migratable(env, later) && Redefines(env, later) && SlashFree(env) && '/' !in later.base
    requires var srcs := Captured(env, Owner(env, later)); k < |srcs| && srcs[k] == Source(PathOf(e), true)
    requires PathOf(e) in w.files && PathOf(e) != PathOf(later) && !Overlaps(env, w, later)
    requires Moved(env, w1, later, w2)
    ensures Owner(env, later) in w2.defs && k < |w2.defs[Owner(env, later)]| && w2.defs[Owner(env, later)][k].path == PathOf(e)
  {
    assert !Overlapped(w, Captured(env, Owner(env, later)), PathOf(later), k);
    NewPathIsFresh(env, w1, later);
    RedefinesIff(env, w1, later);
    SourceRewritten(PathOf(e), PathOf(later), NewPath(env, w1, later));
  }

  /** The disk renamed first gets its old path back, where its file is no more. */
  lemma ClashLoses(env: Env, w: World, work: seq<Entry>, st1: State, st2: State, e: Entry, later: Entry)
    requires Start(env, w, work) && !env.dryRun && e in work && later in work && e != later && Clashes(env, e, later)
    requires !Overlaps(env, w, later) && st1.w == w && st2.w == Step(env, st1, e, GOOD).w
    ensures !Integrity(w, Step(env, st2, later, GOOD).w)
  {
    var d := Owner(env, e);
    var k: nat :| k < |Captured(env, d)| && Captured(env, d)[k] == Source(PathOf(e), true);
    var w' := Step(env, st2, later, GOOD).w;
    OwnerListed(env, e);
    if PathOf(e) == PathOf(later) { JoinInjective(e, later); }
    LaterMoves(env, w, work, st1, st2, e, later);
    OldPathComesBack(env, w, st2.w, w', e, later, k);
    assert !Kept(w, w', w.defs[d][k].path, w'.defs[d][k].path);
  }

  lemma OverlapIsDone(env: Env, w: World, stats: Stats, work: seq<Entry>, i: nat)
    requires Start(env, w, work) && Injective(w.files) && !env.dryRun && i < |work| && Overlaps(env, w, work[i])
    ensures !Integrity(w, Run(env, State(w, stats), work, Only(|work|, i, i)).w)
  {
    var st1 := RunOne(env, State(w, stats), work, i);
    assert work[i] in work;
    OverlapLoses(env, w, st1, work, work[i]);
  }

  lemma ClashIsDone(env: Env, w: World, stats: Stats, work: seq<Entry>, i: nat, j: nat)
    requires Start(env, w, work) && !env.dryRun && i < j < |work| && Clashes(env, work[i], work[j])
    requires !Overlaps(env, w, work[j])
    ensures !Integrity(w, Run(env, State(w, stats), work, Only(|work|, i, j)).w)
  {
    var st1, st2 := RunTwo(env, State(w, stats), work, i, j);
    assert work[i] in work && work[j] in work && work[i] != work[j];
    ClashLoses(env, w, work, st1, st2, work[i], work[j]);
  }

  lemma OnlyUndoes(n: nat, i: nat, j: nat)
    ensures AllUndo(Only(n, i, j))
  {
  }

  lemma HarmIsDone(env: Env, w: World, stats: Stats, work: seq<Entry>) returns (faults: seq<Fault>)
    requires Start(env, w, work) && Injective(w.files) && !env.dryRun && !NoHarm(env, w, work)
    ensures |faults| == |work| && !AnyStrands(env, work, faults) && AllUndo(faults)
    ensures !Integrity(w, Run(env, State(w, stats), work, faults).w)
  {
    var i, j: nat;
    if e :| e in work && Overlaps(env, w, e) {
      i :| 0 <= i < |work| && work[i] == e;
      j := i;
      OverlapIsDone(env, w, stats, work, i);
    } else {
      i, j :| 0 <= i < j < |work| && Clashes(env, work[i], work[j]);
      assert work[j] in work;
      ClashIsDone(env, w, stats, work, i, j);
    }
    faults := Only(|work|, i, j);
    OnlyNeverStrands(env, work, i, j);
    OnlyUndoes(|work|, i, j);
  }

  /** Over every pattern of failures, an undo that fails included: the run keeps every disk exactly
      when no rewritten disk's define and undo both fail, if and only if no old path occurs in another
      disk's path and no disk is renamed before a later entry redefines its domain. */
  lemma SafeExactly(env: Env, w: World, stats: Stats, work: seq<Entry>)
    requires Start(env, w, work) && Injective(w.files) && !env.dryRun
    ensures (forall faults: seq<Fault> | |faults| == |work| ::
               Integrity(w, Run(env, State(w, stats), work, faults).w) <==> !AnyStrands(env, work, faults))
            <==> NoHarm(env, w, work)
  {
    if NoHarm(env, w, work) {
      SoundAtStart(env, w, work);
      forall faults: seq<Fault> | |faults| == |work|
        ensures Integrity(w, Run(env, State(w, stats), work, faults).w) <==> !AnyStrands(env, work, faults)
      {
        RunExact(env, w, State(w, stats), [], work, faults);
      }
    } else {
      var faults := HarmIsDone(env, w, stats, work);
    }
  }

  /** The same when moving back never fails: safe in every pattern exactly without harm. */
  lemma SafeWhenUndoWorks(env: Env, w: World, stats: Stats, work: seq<Entry>)
    requires Start(env, w, work) && Injective(w.files) && !env.dryRun
    ensures (forall faults: seq<Fault> | |faults| == |work| && AllUndo(faults) ::
               Integrity(w, Run(env, State(w, stats), work, faults).w))
            <==> NoHarm(env, w, work)
  {
    if NoHarm(env, w, work) {
      forall faults: seq<Fault> | |faults| == |work| && AllUndo(faults)
        ensures Integrity(w, Run(env, State(w, stats), work, faults).w)
      {
        assert forall i | 0 <= i < |faults| :: faults[i] in faults;
        MigrationKeepsDisks(env, w, stats, work, faults);
      }
    } else {
      var faults := HarmIsDone(env, w, stats, work);
    }
  }
}
