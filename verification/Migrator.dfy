/** `migratePool` and the loop of `main` as the program runs them: over mutable files, definitions
  and counters. */
module Migrator {
  import opened DiskNaming
  import opened DiskMigration

  datatype Pool = Pool(dir: string, names: seq<string>)

  function EntriesOf(dir: string, names: seq<string>): (r: seq<Entry>)
    ensures |r| == |names| && forall i | 0 <= i < |names| :: r[i] == Entry(dir, names[i])
  {
    if names == [] then [] else [Entry(dir, names[0])] + EntriesOf(dir, names[1..])
  }

  function AllEntries(pools: seq<Pool>): seq<Entry> {
    if pools == [] then [] else EntriesOf(pools[0].dir, pools[0].names) + AllEntries(pools[1..])
  }

  function Flat<T>(parts: seq<seq<T>>): seq<T> {
    if parts == [] then [] else parts[0] + Flat(parts[1..])
  }

  lemma LengthsAgree(pools: seq<Pool>, faults: seq<seq<Fault>>)
    requires |faults| == |pools| && forall i | 0 <= i < |pools| :: |faults[i]| == |pools[i].names|
    ensures |AllEntries(pools)| == |Flat(faults)|
  {
  }

  lemma {:induction false} RefsFrame(doms: seq<string>, defs: Defs, caps: Defs)
    requires forall d | d in doms :: d in defs && d in caps && caps[d] == defs[d]
    ensures forall b :: Refs(doms, caps, b) == Refs(doms, defs, b)
  {
    if doms != [] {
      RefsFrame(doms[1..], defs, caps);
    }
  }

  /** A Go map lookup: the zero value for a missing key */
  function At(m: map<string, seq<string>>, b: string): seq<string> {
    if b in m then m[b] else []
  }

  function Mention(m: map<string, seq<string>>, name: string, x: Source): map<string, seq<string>> {
    if x.isDisk then m[Base(x.path) := At(m, Base(x.path)) + [name]] else m
  }

  /** `r` is `m` with the mentions of one domain's sources appended. */
  ghost predicate Extended(m: map<string, seq<string>>, r: map<string, seq<string>>, name: string, xml: seq<Source>) {
    forall b :: At(r, b) == At(m, b) + RefsIn(name, xml, b)
  }

  lemma MentionAt(m: map<string, seq<string>>, r: map<string, seq<string>>, name: string, xml: seq<Source>, x: Source, b: string)
    requires At(r, b) == At(m, b) + RefsIn(name, xml, b)
    ensures At(Mention(r, name, x), b) == At(m, b) + RefsIn(name, xml + [x], b)
  {
    RefsInSnoc(name, xml, x, b);
    var more := if x.isDisk && Base(x.path) == b then [name] else [];
    assert At(Mention(r, name, x), b) == At(r, b) + more;
    assert (At(m, b) + RefsIn(name, xml, b)) + more == At(m, b) + (RefsIn(name, xml, b) + more);
  }

  lemma ExtendedSnoc(m: map<string, seq<string>>, r: map<string, seq<string>>, name: string, xml: seq<Source>, x: Source)
    requires Extended(m, r, name, xml)
    ensures Extended(m, Mention(r, name, x), name, xml + [x])
  {
    forall b ensures At(Mention(r, name, x), b) == At(m, b) + RefsIn(name, xml + [x], b) {
      MentionAt(m, r, name, xml, x, b);
    }
  }

  /** `m` is the reference map of the domains `doms`. */
  ghost predicate References(m: map<string, seq<string>>, doms: seq<string>, defs: Defs) {
    forall b :: At(m, b) == Refs(doms, defs, b)
  }

  lemma ReferencesSnoc(m: map<string, seq<string>>, r: map<string, seq<string>>, doms: seq<string>, d: string, defs: Defs)
    requires References(m, doms, defs) && d in defs && Extended(m, r, d, defs[d])
    ensures References(r, doms + [d], defs)
  {
    forall b ensures At(r, b) == Refs(doms + [d], defs, b) {
      RefsSnoc(doms, d, defs, b);
    }
  }

  class Migration {
    var files: map<string, nat>
    var defs: Defs
    var stats: Stats

    ghost function Abs(): State
      reads this
    {
      State(World(files, defs), stats)
    }

    constructor (files: map<string, nat>, defs: Defs)
      ensures Abs() == State(World(files, defs), Stats(0, 0, 0, 0))
    {
      this.files, this.defs, this.stats := files, defs, Stats(0, 0, 0, 0);
    }

    /** main's inner loop: append the domain once per disk source, under the source's base name. */
    static method AddMentions(name: string, xml: seq<Source>, domainForFile: map<string, seq<string>>)
      returns (r: map<string, seq<string>>)
      ensures Extended(domainForFile, r, name, xml)
    {
      r := domainForFile;
      var j := 0;
      while j < |xml|
        invariant 0 <= j <= |xml| && Extended(domainForFile, r, name, xml[..j])
      {
        ExtendedSnoc(domainForFile, r, name, xml[..j], xml[j]);
        assert xml[..j + 1] == xml[..j] + [xml[j]];
        r := Mention(r, name, xml[j]);
        j := j + 1;
      }
      assert xml[..|xml|] == xml;
    }

    /** The maps main builds before the first rename: the captured definitions, and for each base
        name the domains whose disks have it. */
    method BuildReferences(doms: seq<string>) returns (domainForFile: map<string, seq<string>>, caps: Defs)
      requires forall d | d in doms :: d in defs
      ensures caps.Keys == (set d | d in doms) && forall d | d in doms :: caps[d] == defs[d]
      ensures References(domainForFile, doms, defs)
    {
      domainForFile, caps := map[], map[];
      var k := 0;
      while k < |doms|
        invariant 0 <= k <= |doms|
        invariant caps.Keys == (set d | d in doms[..k]) && forall d | d in doms[..k] :: caps[d] == defs[d]
        invariant References(domainForFile, doms[..k], defs)
      {
        var name := doms[k];
        ghost var before := domainForFile;
        assert doms[..k + 1] == doms[..k] + [name];
        caps := caps[name := defs[name]];
        domainForFile := AddMentions(name, defs[name], domainForFile);
        ReferencesSnoc(before, domainForFile, doms[..k], name, defs);
        k := k + 1;
      }
      assert doms[..|doms|] == doms;
    }

    /** One pool: the loop over its directory entries. */
    method MigratePool(env: Env, domainForFile: map<string, seq<string>>, dir: string, names: seq<string>, faults: seq<Fault>)
      requires |faults| == |names| && SlashFree(env) && forall b | b in names :: '/' !in b
      requires References(domainForFile, env.doms, env.caps)
      modifies this
      ensures Abs() == Run(env, old(Abs()), EntriesOf(dir, names), faults)
    {
      var k := 0;
      ghost var work := EntriesOf(dir, names);
      while k < |names|
        invariant 0 <= k <= |names|
        invariant Run(env, old(Abs()), work, faults) == Run(env, Abs(), work[k..], faults[k..])
      {
        RunFrom(env, Abs(), work, faults, k);
        MigrateEntry(env, At(domainForFile, names[k]), Entry(dir, names[k]), faults[k]);
        k := k + 1;
      }
    }

    /** main: capture everything once, then visit the pools in order. */
    method MigrateAll(doms: seq<string>, pools: seq<Pool>, faults: seq<seq<Fault>>, dryRun: bool, cleanup: bool)
      requires forall d | d in doms :: d in defs && '/' !in d
      requires |faults| == |pools| && forall i | 0 <= i < |pools| ::
                 |faults[i]| == |pools[i].names| && forall b | b in pools[i].names :: '/' !in b
      modifies this
      ensures var env := Env(doms, map d | d in doms :: old(defs)[d], dryRun, cleanup);
              |AllEntries(pools)| == |Flat(faults)| && Abs() == Run(env, old(Abs()), AllEntries(pools), Flat(faults))
    {
      var domainForFile, caps := BuildReferences(doms);
      RefsFrame(doms, defs, caps);
      var env := Env(doms, caps, dryRun, cleanup);
      assert caps == map d | d in doms :: old(defs)[d];
      LengthsAgree(pools, faults);
      var k := 0;
      while k < |pools|
        invariant 0 <= k <= |pools|
        invariant |AllEntries(pools[k..])| == |Flat(faults[k..])|
        invariant Run(env, old(Abs()), AllEntries(pools), Flat(faults))
                  == Run(env, Abs(), AllEntries(pools[k..]), Flat(faults[k..]))
      {
        assert pools[k..][1..] == pools[k + 1..] && faults[k..][1..] == faults[k + 1..];
        LengthsAgree(pools[k + 1..], faults[k + 1..]);
        RunSplit(env, Abs(), EntriesOf(pools[k].dir, pools[k].names), faults[k], AllEntries(pools[k + 1..]), Flat(faults[k + 1..]));
        MigratePool(env, domainForFile, pools[k].dir, pools[k].names, faults[k]);
        k := k + 1;
      }
    }

    method MigrateEntry(env: Env, referencedBy: seq<string>, e: Entry, f: Fault)
      requires SlashFree(env) && '/' !in e.base && referencedBy == Refs(env.doms, env.caps, e.base)
      modifies this
      ensures Abs() == Step(env, old(Abs()), e, f)
    {
      if |referencedBy| == 0 {
        stats := stats.(orphans := stats.orphans + 1);
        if env.cleanup && !env.dryRun {
          if f.removeOk { files := files - {PathOf(e)}; } else { stats := stats.(errors := stats.errors + 1); }
        }
      } else if |referencedBy| > 1 {
        stats := stats.(skipped := stats.skipped + 1);
      } else if !NewFormat(referencedBy[0], EXT, e.base) {
        RenameEntry(env, referencedBy[0], e, f);
      }
    }

    /** The names in the entry's directory. */
    method ListNames(dir: string) returns (names: set<string>)
      ensures names == NamesIn(files, dir)
    {
      names := set p | p in files && '/' !in Base(p) && p == Join(dir, Base(p)) :: Base(p);
    }

    method RenameEntry(env: Env, domName: string, e: Entry, f: Fault)
      requires SlashFree(env) && '/' !in e.base && Migratable(env, e) && domName == Owner(env, e)
      modifies this
      ensures Abs() == Step(env, old(Abs()), e, f)
    {
      RenameStep(env, Abs(), e, f);
      if !f.listed {
        stats := stats.(errors := stats.errors + 1);
        return;
      }
      var names := ListNames(e.dir);
      var newBase := NextName(names, domName, EXT);
      NextIsUnique(names, domName, EXT, newBase, Next(names, domName, EXT));
      if newBase == e.base { return; }
      if env.dryRun {
        stats := stats.(renamed := stats.renamed + 1);
        return;
      }
      if !f.renameOk || PathOf(e) !in files {
        stats := stats.(errors := stats.errors + 1);
        return;
      }
      MoveAndRedefine(env, domName, e, Join(e.dir, newBase), f);
    }

    /** Move the file, redefine the domain from its captured text, and undo the move on failure. */
    method MoveAndRedefine(env: Env, domName: string, e: Entry, newPath: string, f: Fault)
      requires Migratable(env, e) && domName == Owner(env, e) && PathOf(e) in files && newPath == NewPath(env, Abs().w, e)
      requires f.listed && f.renameOk && !env.dryRun
      modifies this
      ensures Abs() == Step(env, old(Abs()), e, f)
    {
      var path := PathOf(e);
      files := (files - {path})[newPath := files[path]];
      var xml := Captured(env, domName);
      var newXML := Rewrite(xml, path, newPath);
      if newXML != xml {
        if !f.defineOk {
          if f.undoOk { files := (files - {newPath})[path := files[newPath]]; }
          stats := stats.(errors := stats.errors + 1);
          return;
        }
        defs := defs[domName := newXML];
      }
      stats := stats.(renamed := stats.renamed + 1);
    }
  }

  /** What becomes of an entry to rename before its file is touched. */
  lemma RenameStep(env: Env, st: State, e: Entry, f: Fault)
    requires Migratable(env, e)
    ensures !f.listed ==> Step(env, st, e, f) == st.(stats := st.stats.(errors := st.stats.errors + 1))
    ensures f.listed && env.dryRun ==> Step(env, st, e, f) == st.(stats := st.stats.(renamed := st.stats.renamed + 1))
    ensures f.listed && !env.dryRun && (!f.renameOk || PathOf(e) !in st.w.files) ==>
              Step(env, st, e, f) == st.(stats := st.stats.(errors := st.stats.errors + 1))
  {
  }

  /** One more entry of a run. */
  lemma RunFrom(env: Env, s: State, work: seq<Entry>, faults: seq<Fault>, k: nat)
    requires |faults| == |work| && k < |work|
    ensures Run(env, s, work[k..], faults[k..]) == Run(env, Step(env, s, work[k], faults[k]), work[k + 1..], faults[k + 1..])
  {
    assert work[k..][1..] == work[k + 1..] && faults[k..][1..] == faults[k + 1..];
  }

  lemma {:induction false} RefsInSnoc(d: string, srcs: seq<Source>, x: Source, base: string)
    ensures RefsIn(d, srcs + [x], base) == RefsIn(d, srcs, base) + (if x.isDisk && Base(x.path) == base then [d] else [])
  {
    var last := if x.isDisk && Base(x.path) == base then [d] else [];
    if srcs == [] {
      assert ([] + [x])[1..] == [];
      assert RefsIn(d, [] + [x], base) == last + [];
    } else {
      var first := if srcs[0].isDisk && Base(srcs[0].path) == base then [d] else [];
      assert (srcs + [x])[0] == srcs[0] && (srcs + [x])[1..] == srcs[1..] + [x];
      RefsInSnoc(d, srcs[1..], x, base);
      assert RefsIn(d, srcs + [x], base) == first + RefsIn(d, srcs[1..] + [x], base);
      Regroup(first, RefsIn(d, srcs[1..], base), last);
    }
  }

  lemma {:induction false} RefsSnoc(doms: seq<string>, d: string, caps: Defs, base: string)
    ensures Refs(doms + [d], caps, base) == Refs(doms, caps, base) + (if d in caps then RefsIn(d, caps[d], base) else [])
  {
    var last := if d in caps then RefsIn(d, caps[d], base) else [];
    if doms == [] {
      assert ([] + [d])[1..] == [];
      assert Refs([d], caps, base) == last + Refs([], caps, base);
    } else {
      var h := doms[0];
      var first, rest := if h in caps then RefsIn(h, caps[h], base) else [], Refs(doms[1..], caps, base);
      assert (doms + [d])[0] == h && (doms + [d])[1..] == doms[1..] + [d];
      RefsSnoc(doms[1..], d, caps, base);
      assert Refs(doms, caps, base) == first + rest;
      assert Refs(doms + [d], caps, base) == first + Refs(doms[1..] + [d], caps, base);
      Regroup(first, rest, last);
    }
  }

  lemma Regroup(a: seq<string>, b: seq<string>, c: seq<string>)
    ensures a + (b + c) == (a + b) + c
  {
  }
}
