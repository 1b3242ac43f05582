/** The one-shot migration of disk files to VM-name-based names (`migratePool` and the reference
  maps its `main` builds).

  A domain definition is the sequence of its source paths; a file is known by its full path.  The
  migration rewrites a definition by replacing every occurrence of the old path in the text that was
  captured before the first rename, and never refreshes that text.
*/
module DiskMigration {
  import opened DiskNaming

  const EXT: string := ".qcow2"

  /** One `<source file=...>`; `isDisk` is false for a cdrom. */
  datatype Source = Source(path: string, isDisk: bool)

  type Defs = map<string, seq<Source>>

  /** `files` maps each full path to its content; where contents are told apart, the number stands for
      the file itself. */
  datatype World = World(files: map<string, nat>, defs: Defs)

  datatype Stats = Stats(renamed: nat, skipped: nat, orphans: nat, errors: nat)

  datatype State = State(w: World, stats: Stats)

  datatype Entry = Entry(dir: string, base: string)

  /** How the fallible calls for one directory entry turn out. */
  datatype Fault = Fault(listed: bool, renameOk: bool, defineOk: bool, undoOk: bool, removeOk: bool)

  /** What main fixes before the first rename: the domain names, their captured definitions, the flags. */
  datatype Env = Env(doms: seq<string>, caps: Defs, dryRun: bool, cleanup: bool)

  // ---- paths ----

  function Join(dir: string, base: string): string {
    dir + "/" + base
  }

  function PathOf(e: Entry): string {
    Join(e.dir, e.base)
  }

  /** filepath.Base of a path that does not end in a slash */
  function Base(path: string): string {
    if path == [] || path[|path| - 1] == '/' then "" else Base(path[..|path| - 1]) + [path[|path| - 1]]
  }

  lemma {:induction false} BaseOfJoin(dir: string, base: string)
    requires '/' !in base
    ensures Base(Join(dir, base)) == base
  {
    var p := Join(dir, base);
    if base != [] {
      var init := base[..|base| - 1];
      assert p[..|p| - 1] == Join(dir, init);
      BaseOfJoin(dir, init);
      assert base == init + [base[|base| - 1]];
    }
  }

  lemma JoinInjective(e: Entry, e': Entry)
    requires '/' !in e.base && '/' !in e'.base && PathOf(e) == PathOf(e')
    ensures e == e'
  {
    BaseOfJoin(e.dir, e.base);
    BaseOfJoin(e'.dir, e'.base);
    var p := PathOf(e);
    assert p[..|p| - |e.base| - 1] == e.dir && p[..|p| - |e.base| - 1] == e'.dir;
  }

  /** The plain files of a directory, as ReadDir reports them. */
  ghost function NamesIn(files: map<string, nat>, dir: string): set<string> {
    set p | p in files && '/' !in Base(p) && p == Join(dir, Base(p)) :: Base(p)
  }

  lemma NamesInExact(files: map<string, nat>, dir: string, base: string)
    requires '/' !in base
    ensures base in NamesIn(files, dir) <==> Join(dir, base) in files
  {
    BaseOfJoin(dir, base);
  }

  // ---- text replacement ----

  /** strings.ReplaceAll for a non-empty `was`: leftmost, non-overlapping. */
  function ReplaceAll(s: string, was: string, now: string): string
    requires was != ""
    decreases |s|
  {
    if |s| < |was| then s
    else if s[..|was|] == was then now + ReplaceAll(s[|was|..], was, now)
    else [s[0]] + ReplaceAll(s[1..], was, now)
  }

  predicate Occurs(was: string, s: string) {
    |s| >= |was| && (s[..|was|] == was || (s != "" && Occurs(was, s[1..])))
  }

  lemma {:induction false} ReplaceAbsent(s: string, was: string, now: string)
    requires was != "" && !Occurs(was, s)
    ensures ReplaceAll(s, was, now) == s
    decreases |s|
  {
    if |s| >= |was| { ReplaceAbsent(s[1..], was, now); }
  }

  lemma ReplaceHere(was: string, b: string, now: string)
    requires was != ""
    ensures ReplaceAll(was + b, was, now) == now + ReplaceAll(b, was, now)
  {
    assert (was + b)[..|was|] == was && (was + b)[|was|..] == b;
  }

  lemma ReplaceLater(c: char, s: string, was: string, now: string)
    requires 0 < |was| <= |s| + 1 && ([c] + s)[..|was|] != was
    ensures ReplaceAll([c] + s, was, now) == [c] + ReplaceAll(s, was, now)
  {
    assert ([c] + s)[1..] == s;
  }

  /** Every occurrence is replaced, from the left: what stands before the first one is kept, and what
      stands after it is searched again. */
  lemma {:induction false} ReplaceFirst(a: string, was: string, b: string, now: string)
    requires was != "" && !Occurs(was, a + was[..|was| - 1])
    ensures ReplaceAll(a + was + b, was, now) == a + now + ReplaceAll(b, was, now)
  {
    if a == [] {
      assert a + was + b == was + b && a + now + ReplaceAll(b, was, now) == now + ReplaceAll(b, was, now);
      ReplaceHere(was, b, now);
    } else {
      var before, tail := a + was[..|was| - 1], a[1..] + was + b;
      assert before[1..] == a[1..] + was[..|was| - 1];
      assert a + was + b == [a[0]] + tail && (a + was + b)[..|was|] == before[..|was|];
      ReplaceFirst(a[1..], was, b, now);
      ReplaceLater(a[0], tail, was, now);
      assert [a[0]] + (a[1..] + now + ReplaceAll(b, was, now)) == a + now + ReplaceAll(b, was, now);
    }
  }

  lemma ReplaceWhole(was: string, now: string)
    requires was != ""
    ensures ReplaceAll(was, was, now) == now
  {
    assert was[..|was|] == was && was[|was|..] == "";
  }

  lemma {:induction false} ReplaceLength(s: string, was: string, now: string)
    requires was != ""
    ensures |now| >= |was| ==> |ReplaceAll(s, was, now)| >= |s|
    ensures |now| <= |was| ==> |ReplaceAll(s, was, now)| <= |s|
    decreases |s|
  {
    if |s| >= |was| {
      if s[..|was|] == was { ReplaceLength(s[|was|..], was, now); } else { ReplaceLength(s[1..], was, now); }
    }
  }

  /** Replacing an occurrence by something else changes the text. */
  lemma {:induction false} ReplaceChanges(s: string, was: string, now: string)
    requires was != "" && now != was && Occurs(was, s)
    ensures ReplaceAll(s, was, now) != s
    decreases |s|
  {
    if s[..|was|] == was {
      var rest := s[|was|..];
      ReplaceLength(rest, was, now);
      var r := ReplaceAll(rest, was, now);
      if |now| == |was| {
        assert (now + r)[..|was|] == now;
      } else {
        assert |now + r| == |now| + |r| && |s| == |was| + |rest|;
      }
    } else {
      ReplaceChanges(s[1..], was, now);
      assert ([s[0]] + ReplaceAll(s[1..], was, now))[1..] == ReplaceAll(s[1..], was, now);
    }
  }

  function Rewrite(srcs: seq<Source>, was: string, now: string): (r: seq<Source>)
    requires was != ""
    ensures |r| == |srcs|
    ensures forall i | 0 <= i < |srcs| :: r[i] == Source(ReplaceAll(srcs[i].path, was, now), srcs[i].isDisk)
  {
    if srcs == [] then []
    else [Source(ReplaceAll(srcs[0].path, was, now), srcs[0].isDisk)] + Rewrite(srcs[1..], was, now)
  }

  /** The one source, rewritten as a path and not as text. */
  function Redirected(src: Source, was: string, now: string): Source {
    Source(if src.path == was then now else src.path, src.isDisk)
  }

  /** The text replacement redirects exactly the sources that are the old path if and only if the old
      path occurs in no other source. */
  lemma RewriteExactly(srcs: seq<Source>, was: string, now: string)
    requires was != "" && now != was
    ensures (forall i | 0 <= i < |srcs| :: Rewrite(srcs, was, now)[i] == Redirected(srcs[i], was, now))
            <==> (forall i | 0 <= i < |srcs| :: Occurs(was, srcs[i].path) ==> srcs[i].path == was)
  {
    var r := Rewrite(srcs, was, now);
    forall i | 0 <= i < |srcs|
      ensures r[i] == Redirected(srcs[i], was, now) <==> (Occurs(was, srcs[i].path) ==> srcs[i].path == was)
    {
      SourceRewritten(srcs[i].path, was, now);
    }
  }

  lemma SourceRewritten(path: string, was: string, now: string)
    requires was != "" && now != was
    ensures path == was ==> ReplaceAll(path, was, now) == now
    ensures !Occurs(was, path) ==> ReplaceAll(path, was, now) == path
    ensures Occurs(was, path) ==> ReplaceAll(path, was, now) != path
  {
    if path == was { ReplaceWhole(was, now); }
    if Occurs(was, path) { ReplaceChanges(path, was, now); } else { ReplaceAbsent(path, was, now); }
  }

  // ---- which domains reference a base name ----

  function RefsIn(dom: string, srcs: seq<Source>, base: string): seq<string> {
    if srcs == [] then []
    else (if srcs[0].isDisk && Base(srcs[0].path) == base then [dom] else []) + RefsIn(dom, srcs[1..], base)
  }

  /** domainForFile[base]: one mention of a domain per disk source with that base name. */
  function Refs(doms: seq<string>, caps: Defs, base: string): seq<string> {
    if doms == [] then []
    else (if doms[0] in caps then RefsIn(doms[0], caps[doms[0]], base) else []) + Refs(doms[1..], caps, base)
  }

  predicate Mentions(srcs: seq<Source>, i: nat, base: string) {
    i < |srcs| && srcs[i].isDisk && Base(srcs[i].path) == base
  }

  lemma {:induction false} RefsInCount(dom: string, srcs: seq<Source>, base: string, i: nat, j: nat)
    requires Mentions(srcs, i, base) && Mentions(srcs, j, base)
    ensures |RefsIn(dom, srcs, base)| >= (if i == j then 1 else 2) && dom in RefsIn(dom, srcs, base)
  {
    if i == 0 || j == 0 {
      var k := if i == 0 then j else i;
      if k != 0 {
        assert Mentions(srcs[1..], k - 1, base);
        RefsInCount(dom, srcs[1..], base, k - 1, k - 1);
      }
    } else {
      assert Mentions(srcs[1..], i - 1, base) && Mentions(srcs[1..], j - 1, base);
      RefsInCount(dom, srcs[1..], base, i - 1, j - 1);
    }
  }

  lemma {:induction false} RefsCount(doms: seq<string>, caps: Defs, base: string, d: string, i: nat, d': string, j: nat)
    requires d in doms && d' in doms && d in caps && d' in caps
    requires Mentions(caps[d], i, base) && Mentions(caps[d'], j, base)
    ensures |Refs(doms, caps, base)| >= (if d == d' && i == j then 1 else 2)
    ensures d in Refs(doms, caps, base)
  {
    var h := doms[0];
    var tail := Refs(doms[1..], caps, base);
    if d == h && d' == h {
      RefsInCount(h, caps[h], base, i, j);
    } else if d == h {
      RefsInCount(h, caps[h], base, i, i);
      RefsCount(doms[1..], caps, base, d', j, d', j);
    } else if d' == h {
      RefsInCount(h, caps[h], base, j, j);
      RefsCount(doms[1..], caps, base, d, i, d, i);
    } else {
      RefsCount(doms[1..], caps, base, d, i, d', j);
    }
  }

  lemma {:induction false} RefsInSound(dom: string, srcs: seq<Source>, base: string)
    ensures RefsIn(dom, srcs, base) != [] ==> exists i: nat :: Mentions(srcs, i, base)
    ensures forall x | x in RefsIn(dom, srcs, base) :: x == dom
  {
    if srcs != [] {
      RefsInSound(dom, srcs[1..], base);
      if Mentions(srcs, 0, base) {
      } else if RefsIn(dom, srcs[1..], base) != [] {
        var i: nat :| Mentions(srcs[1..], i, base);
        assert Mentions(srcs, i + 1, base);
      }
    }
  }

  lemma {:induction false} RefsSound(doms: seq<string>, caps: Defs, base: string, d: string) returns (i: nat)
    requires d in Refs(doms, caps, base)
    ensures d in doms && d in caps && Mentions(caps[d], i, base)
  {
    var h := doms[0];
    if h in caps && d in RefsIn(h, caps[h], base) {
      RefsInSound(h, caps[h], base);
      i :| Mentions(caps[h], i, base);
    } else {
      i := RefsSound(doms[1..], caps, base, d);
    }
  }

  // ---- one directory entry ----

  predicate Migratable(env: Env, e: Entry) {
    var refs := Refs(env.doms, env.caps, e.base);
    |refs| == 1 && !NewFormat(refs[0], EXT, e.base)
  }

  function Owner(env: Env, e: Entry): string
    requires Migratable(env, e)
  {
    Refs(env.doms, env.caps, e.base)[0]
  }

  ghost function NewPath(env: Env, w: World, e: Entry): string
    requires Migratable(env, e)
  {
    Join(e.dir, Next(NamesIn(w.files, e.dir), Owner(env, e), EXT))
  }

  ghost function Renamed(files: map<string, nat>, was: string, now: string): map<string, nat>
    requires was in files
  {
    (files - {was})[now := files[was]]
  }

  function Def(defs: Defs, d: string): seq<Source> {
    if d in defs then defs[d] else []
  }

  function Captured(env: Env, d: string): seq<Source> {
    Def(env.caps, d)
  }

  ghost function Step(env: Env, st: State, e: Entry, f: Fault): State {
    var refs := Refs(env.doms, env.caps, e.base);
    var path := PathOf(e);
    if |refs| == 0 then
      var s := st.stats.(orphans := st.stats.orphans + 1);
      if !env.cleanup || env.dryRun then State(st.w, s)
      else if f.removeOk then State(st.w.(files := st.w.files - {path}), s)
      else State(st.w, s.(errors := s.errors + 1))
    else if |refs| > 1 then st.(stats := st.stats.(skipped := st.stats.skipped + 1))
    else if NewFormat(refs[0], EXT, e.base) then st
    else if !f.listed then st.(stats := st.stats.(errors := st.stats.errors + 1))
    else if env.dryRun then st.(stats := st.stats.(renamed := st.stats.renamed + 1))
    else if !f.renameOk || path !in st.w.files then st.(stats := st.stats.(errors := st.stats.errors + 1))
    else
      var now := NewPath(env, st.w, e);
      var moved := Renamed(st.w.files, path, now);
      var srcs := Captured(env, refs[0]);
      var srcs' := Rewrite(srcs, path, now);
      if srcs' == srcs then
        State(st.w.(files := moved), st.stats.(renamed := st.stats.renamed + 1))
      else if !f.defineOk then
        State(st.w.(files := if f.undoOk then Renamed(moved, now, path) else moved),
              st.stats.(errors := st.stats.errors + 1))
      else
        State(World(moved, st.w.defs[refs[0] := srcs']), st.stats.(renamed := st.stats.renamed + 1))
  }

  ghost function Run(env: Env, st: State, work: seq<Entry>, faults: seq<Fault>): State
    requires |faults| == |work|
    decreases |work|
  {
    if work == [] then st else Run(env, Step(env, st, work[0], faults[0]), work[1..], faults[1..])
  }

  lemma {:induction false} RunSplit(env: Env, st: State, w1: seq<Entry>, f1: seq<Fault>, w2: seq<Entry>, f2: seq<Fault>)
    requires |w1| == |f1| && |w2| == |f2|
    ensures Run(env, st, w1 + w2, f1 + f2) == Run(env, Run(env, st, w1, f1), w2, f2)
    decreases |w1|
  {
    if w1 == [] {
      assert w1 + w2 == w2 && f1 + f2 == f2;
    } else {
      assert (w1 + w2)[1..] == w1[1..] + w2 && (f1 + f2)[1..] == f1[1..] + f2;
      RunSplit(env, Step(env, st, w1[0], f1[0]), w1[1..], f1[1..], w2, f2);
    }
  }

  lemma NewPathIsFresh(env: Env, w: World, e: Entry)
    requires Migratable(env, e) && '/' !in e.base && SlashFree(env)
    ensures NewPath(env, w, e) !in w.files && NewPath(env, w, e) != PathOf(e)
    ensures NewFormat(Owner(env, e), EXT, Base(NewPath(env, w, e))) && '/' !in Base(NewPath(env, w, e))
    ensures NewPath(env, w, e) == Join(e.dir, Base(NewPath(env, w, e)))
  {
    var names := NamesIn(w.files, e.dir);
    var d := Owner(env, e);
    var r := Next(names, d, EXT);
    NextIsFresh(names, d, EXT, r);
    OwnerListed(env, e);
    NewFormatSlashFree(d, r);
    BaseOfJoin(e.dir, r);
    NamesInExact(w.files, e.dir, r);
    if NewPath(env, w, e) == PathOf(e) { JoinInjective(e, Entry(e.dir, r)); }
  }

  /** Domain names contain no slash. */
  ghost predicate SlashFree(env: Env) {
    forall d | d in env.doms :: '/' !in d
  }

  lemma OwnerListed(env: Env, e: Entry)
    requires Migratable(env, e)
    ensures Owner(env, e) in env.doms && Owner(env, e) in env.caps
  {
    var i := RefsSound(env.doms, env.caps, e.base, Owner(env, e));
  }

  lemma NewFormatSlashFree(d: string, r: string)
    requires '/' !in d && NewFormat(d, EXT, r)
    ensures '/' !in r
  {
    var m := Middle(d, EXT, r);
    assert r == d + m + EXT;
    assert m != "" ==> m == ['-'] + m[1..];
    assert '/' !in EXT;
  }
}
