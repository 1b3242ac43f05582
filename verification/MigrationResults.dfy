/** Further results about the migration: contents are conserved, and what a stranded disk is. */
module MigrationResults {
  import opened DiskNaming
  import opened DiskMigration
  import opened MigrationSafety

  // ---- contents ----

  ghost function Tally(files: map<string, nat>, ks: set<string>): multiset<nat>
    requires ks <= files.Keys
  {
    if ks == {} then multiset{}
    else
      var p :| p in ks;
      multiset{files[p]} + Tally(files, ks - {p})
  }

  ghost function Contents(files: map<string, nat>): multiset<nat> {
    Tally(files, files.Keys)
  }

  lemma {:induction false} TallyWithout(files: map<string, nat>, ks: set<string>, p: string)
    requires ks <= files.Keys && p in ks
    ensures Tally(files, ks) == multiset{files[p]} + Tally(files, ks - {p})
  {
    var q :| q in ks && Tally(files, ks) == multiset{files[q]} + Tally(files, ks - {q});
    if q != p {
      TallyWithout(files, ks - {q}, p);
      TallyWithout(files, ks - {p}, q);
      assert ks - {q} - {p} == ks - {p} - {q};
    }
  }

  lemma {:induction false} TallyAgrees(files: map<string, nat>, files': map<string, nat>, ks: set<string>)
    requires ks <= files.Keys && ks <= files'.Keys && forall p | p in ks :: files[p] == files'[p]
    ensures Tally(files, ks) == Tally(files', ks)
  {
    if ks != {} {
      var q :| q in ks && Tally(files, ks) == multiset{files[q]} + Tally(files, ks - {q});
      TallyAgrees(files, files', ks - {q});
      TallyWithout(files', ks, q);
    }
  }

  lemma ContentsWithout(files: map<string, nat>, p: string)
    requires p in files
    ensures Contents(files) == multiset{files[p]} + Contents(files - {p})
  {
    TallyWithout(files, files.Keys, p);
    assert (files - {p}).Keys == files.Keys - {p};
    TallyAgrees(files, files - {p}, files.Keys - {p});
  }

  lemma RenameKeepsContents(files: map<string, nat>, was: string, now: string)
    requires was in files && now !in files
    ensures Contents(Renamed(files, was, now)) == Contents(files)
  {
    var r := Renamed(files, was, now);
    ContentsWithout(files, was);
    ContentsWithout(r, now);
    assert r - {now} == files - {was};
  }

  lemma StepContents(env: Env, st: State, e: Entry, f: Fault)
    requires '/' !in e.base && SlashFree(env)
    ensures Contents(Step(env, st, e, f).w.files) <= Contents(st.w.files)
    ensures !env.cleanup ==> Contents(Step(env, st, e, f).w.files) == Contents(st.w.files)
  {
    var files := st.w.files;
    if Orphan(env, e) {
      if PathOf(e) in files { ContentsWithout(files, PathOf(e)); } else { assert files - {PathOf(e)} == files; }
    } else if Migratable(env, e) && PathOf(e) in files {
      var n := NewPath(env, st.w, e);
      NewPathIsFresh(env, st.w, e);
      RenameKeepsContents(files, PathOf(e), n);
      UndoRestores(files, PathOf(e), n);
    }
  }

  /** Without orphan cleanup the contents of the pool files are the same multiset after any run, with
      any pattern of failures whatsoever; with it, nothing is added. */
  lemma {:induction false} RunKeepsContents(env: Env, st: State, work: seq<Entry>, faults: seq<Fault>)
    requires |faults| == |work| && PlainEntries(work) && SlashFree(env)
    ensures Contents(Run(env, st, work, faults).w.files) <= Contents(st.w.files)
    ensures !env.cleanup ==> Contents(Run(env, st, work, faults).w.files) == Contents(st.w.files)
    decreases |work|
  {
    if work != [] {
      StepContents(env, st, work[0], faults[0]);
      RunKeepsContents(env, Step(env, st, work[0], faults[0]), work[1..], faults[1..]);
    }
  }

  // ---- error-free runs ----

  const GOOD: Fault := Fault(true, true, true, true, true)

  function Good(n: nat): seq<Fault> { seq(n, _ => GOOD) }

  lemma GoodTail(n: nat)
    requires n > 0
    ensures Good(n)[0] == GOOD && Good(n)[1..] == Good(n - 1)
  {
  }

  lemma GoodStep(env: Env, st: State, e: Entry)
    requires '/' !in e.base && SlashFree(env) && !env.dryRun
    ensures var w' := Step(env, st, e, GOOD).w;
            && (Migratable(env, e) && PathOf(e) in st.w.files ==> Moved(env, st.w, e, w'))
            && (!Migratable(env, e) ==> w' == st.w || w' == st.w.(files := st.w.files - {PathOf(e)}))
  {
  }

  /** The bare name of a domain's disk, or the name with a suffix of digits. */
  ghost predicate Settled(d: string, base: string) {
    base == d + ".qcow2" || exists s :: Suffixed(d, ".qcow2", base, s)
  }

  /** An entry that one disk source mentions, when nothing fails: left alone exactly when its name is
      the domain's bare one or has a suffix of digits, and moved to a free name of that kind otherwise. */
  lemma RenamesExactly(env: Env, st: State, e: Entry, d: string) returns (base: string)
    requires '/' !in e.base && SlashFree(env) && !env.dryRun
    requires Refs(env.doms, env.caps, e.base) == [d] && PathOf(e) in st.w.files
    ensures Settled(d, e.base) ==> Step(env, st, e, GOOD) == st
    ensures !Settled(d, e.base) ==>
              && Settled(d, base) && Join(e.dir, base) !in st.w.files
              && PathOf(e) !in Step(env, st, e, GOOD).w.files
              && Step(env, st, e, GOOD).w.files == (st.w.files - {PathOf(e)})[Join(e.dir, base) := st.w.files[PathOf(e)]]
              && Step(env, st, e, GOOD).stats == st.stats.(renamed := st.stats.renamed + 1)
  {
    NewFormatExactly(d, ".qcow2", e.base);
    base := e.base;
    if !Settled(d, e.base) {
      base := Base(NewPath(env, st.w, e));
      NewPathIsFresh(env, st.w, e);
      NewFormatExactly(d, ".qcow2", base);
      GoodStep(env, st, e);
    }
  }

  /** The pattern of restored disks, `<vm>-restored-<time>.qcow2`, is one of those that are renamed. */
  lemma RestoredIsNotSettled(d: string, time: string)
    ensures !Settled(d, d + "-restored-" + time + ".qcow2")
  {
    var s := "restored-" + time;
    assert d + "-" + s + ".qcow2" == d + "-restored-" + time + ".qcow2";
    OtherSuffixIsOld(d, ".qcow2", s, 0);
    NewFormatExactly(d, ".qcow2", d + "-" + s + ".qcow2");
  }

  /** The captured text of a domain mentions the path of the entry, whole or inside another one. */
  ghost predicate TextMentions(env: Env, e: Entry, d: string) {
    exists i :: 0 <= i < |Captured(env, d)| && Occurs(PathOf(e), Captured(env, d)[i].path)
  }

  lemma RewriteChanges(srcs: seq<Source>, was: string, now: string)
    requires was != "" && now != was
    ensures Rewrite(srcs, was, now) != srcs <==> exists i :: 0 <= i < |srcs| && Occurs(was, srcs[i].path)
  {
    forall i | 0 <= i < |srcs| ensures Rewrite(srcs, was, now)[i] != srcs[i] <==> Occurs(was, srcs[i].path) {
      SourceRewritten(srcs[i].path, was, now);
    }
    if i :| 0 <= i < |srcs| && Occurs(was, srcs[i].path) { assert Rewrite(srcs, was, now)[i] != srcs[i]; }
  }

  /** The counter one entry to rename moves, whatever fails: it counts as renamed when the directory could
      be read and, but for a dry run, the file was moved and the definition, if its text mentions the
      file, was taken; and as an error otherwise. */
  lemma CountedExactly(env: Env, st: State, e: Entry, f: Fault, d: string)
    requires '/' !in e.base && SlashFree(env) && Refs(env.doms, env.caps, e.base) == [d] && !Settled(d, e.base)
    ensures Step(env, st, e, f).stats ==
              if f.listed && (env.dryRun || (f.renameOk && PathOf(e) in st.w.files && (f.defineOk || !TextMentions(env, e, d))))
              then st.stats.(renamed := st.stats.renamed + 1)
              else st.stats.(errors := st.stats.errors + 1)
  {
    NewFormatExactly(d, ".qcow2", e.base);
    NewPathIsFresh(env, st.w, e);
    RewriteChanges(Captured(env, d), PathOf(e), NewPath(env, st.w, e));
  }

  /** How many entries more than one source mentions, how many none does, and how many are either to be
      renamed or orphans that cannot be removed. */
  function Census(env: Env, work: seq<Entry>, faults: seq<Fault>): (nat, nat, nat)
    requires |faults| == |work|
  {
    if work == [] then (0, 0, 0)
    else
      var (skipped, orphans, handled) := Census(env, work[1..], faults[1..]);
      var refs := Refs(env.doms, env.caps, work[0].base);
      (skipped + (if |refs| > 1 then 1 else 0),
       orphans + (if |refs| == 0 then 1 else 0),
       handled + (if |refs| == 1 && !NewFormat(refs[0], EXT, work[0].base) then 1 else 0)
               + (if |refs| == 0 && env.cleanup && !env.dryRun && !faults[0].removeOk then 1 else 0))
  }

  /** The counters of any run, whatever fails, add up: every entry is counted where it belongs. */
  lemma {:induction false} CountersAddUp(env: Env, st: State, work: seq<Entry>, faults: seq<Fault>)
    requires |faults| == |work|
    ensures var r := Run(env, st, work, faults).stats;
            var (skipped, orphans, handled) := Census(env, work, faults);
            && r.skipped == st.stats.skipped + skipped && r.orphans == st.stats.orphans + orphans
            && r.renamed + r.errors == st.stats.renamed + st.stats.errors + handled
    decreases |work|
  {
    if work != [] {
      CountersAddUp(env, Step(env, st, work[0], faults[0]), work[1..], faults[1..]);
    }
  }

  /** The entries not yet visited are still where they were. */
  ghost predicate StillListed(w0: World, w: World, rest: seq<Entry>) {
    forall e | e in rest :: PathOf(e) in w.files && PathOf(e) in w0.files && w.files[PathOf(e)] == w0.files[PathOf(e)]
  }

  lemma GoodStepListed(env: Env, w0: World, st: State, work: seq<Entry>)
    requires work != [] && SlashFree(env) && !env.dryRun && PlainEntries(work) && Distinct(work)
    requires StillListed(w0, st.w, work)
    ensures StillListed(w0, Step(env, st, work[0], GOOD).w, work[1..])
    ensures PlainEntries(work[1..]) && Distinct(work[1..])
  {
    var e := work[0];
    GoodStep(env, st, e);
    if Migratable(env, e) { NewPathIsFresh(env, st.w, e); }
    forall x | x in work[1..] ensures x in work && PathOf(x) != PathOf(e) {
      if PathOf(x) == PathOf(e) { JoinInjective(x, e); }
    }
  }

  // ---- stranded disks ----

  ghost predicate Injective(files: map<string, nat>) {
    forall p, q | p in files && q in files && files[p] == files[q] :: p == q
  }

  /** A disk of `d` whose file has moved to `loc` while its definition says, or will again say, the
      old path `was`. */
  ghost predicate Stranded(w0: World, w: World, d: string, k: nat, was: string, loc: string) {
    && SameShape(w0.defs, w.defs) && d in w0.defs && k < |w0.defs[d]| && w0.defs[d][k] == Source(was, true)
    && was in w0.files && loc in w.files && w.files[loc] == w0.files[was] && loc != was && Injective(w.files)
  }

  lemma StrandedLoses(w0: World, w: World, d: string, k: nat, was: string, loc: string)
    requires Stranded(w0, w, d, k, was, loc) && w.defs[d][k].path == was
    ensures !Integrity(w0, w)
  {
    assert w0.defs[d][k].isDisk && !Kept(w0, w, w0.defs[d][k].path, w.defs[d][k].path);
  }

  lemma MoveKeepsStranded(env: Env, w0: World, w: World, e: Entry, w': World, d: string, k: nat, was: string, loc: string)
    requires env.caps == w0.defs && SlashFree(env) && '/' !in e.base && Moved(env, w, e, w')
    requires Stranded(w0, w, d, k, was, loc) && PathOf(e) != loc
    ensures Stranded(w0, w', d, k, was, loc)
  {
    NewPathIsFresh(env, w, e);
    OwnerListed(env, e);
  }

  lemma OccursInItself(s: string)
    ensures Occurs(s, s)
  {
  }
}
