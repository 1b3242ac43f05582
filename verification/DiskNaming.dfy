/** Disk file names of the form `<vm>[-<N>]<ext>` and the helper that picks the next free one
  (`VMDiskPath`, and `isNewFormat` of the migration). */
module DiskNaming {

  // ---- decimal numerals ----

  predicate IsDigits(s: string) {
    s != [] && forall c | c in s :: '0' <= c <= '9'
  }

  function ParseDec(s: string): nat {
    if s == [] then 0
    else
      var d := s[|s| - 1] as int - '0' as int;
      10 * ParseDec(s[..|s| - 1]) + (if d < 0 then 0 else d)
  }

  function Digit(n: nat): char
    requires n < 10
  {
    ('0' as int + n) as char
  }

  function ToDec(n: nat): string {
    if n < 10 then [Digit(n)] else ToDec(n / 10) + [Digit(n % 10)]
  }

  lemma {:induction false} DecRoundTrip(n: nat)
    ensures IsDigits(ToDec(n)) && ParseDec(ToDec(n)) == n
  {
    if n < 10 {
      assert ToDec(n)[..0] == [];
    } else {
      DecRoundTrip(n / 10);
      assert ToDec(n)[..|ToDec(n)| - 1] == ToDec(n / 10);
    }
  }

  // ---- the format ----

  /** What stands between `dom` and `ext` in `base`; meaningful when `base` starts and ends so. */
  function Middle(dom: string, ext: string, base: string): string
    requires |dom| + |ext| <= |base|
  {
    base[|dom|..|base| - |ext|]
  }

  /** The pattern `^dom(-\d+)?ext$` */
  predicate NewFormat(dom: string, ext: string, base: string) {
    && |dom| + |ext| <= |base|
    && dom <= base
    && base[|base| - |ext|..] == ext
    && (var m := Middle(dom, ext, base); m == "" || (m[0] == '-' && IsDigits(m[1..])))
  }

  /** The number a name of the format counts for: its suffix, 1 for the bare name. */
  function NumberOf(dom: string, ext: string, base: string): nat
    requires NewFormat(dom, ext, base)
  {
    var m := Middle(dom, ext, base);
    if m == "" then 1 else ParseDec(m[1..])
  }

  function Numbered(dom: string, ext: string, n: nat): string {
    dom + "-" + ToDec(n) + ext
  }

  lemma NumberedIsNewFormat(dom: string, ext: string, n: nat)
    ensures NewFormat(dom, ext, Numbered(dom, ext, n)) && NumberOf(dom, ext, Numbered(dom, ext, n)) == n
  {
    DecRoundTrip(n);
    var base := Numbered(dom, ext, n);
    assert base == dom + ("-" + ToDec(n)) + ext;
    assert Middle(dom, ext, base) == "-" + ToDec(n);
    assert ("-" + ToDec(n))[1..] == ToDec(n);
  }

  lemma BareIsNewFormat(dom: string, ext: string)
    ensures NewFormat(dom, ext, dom + ext)
  {
    assert Middle(dom, ext, dom + ext) == "";
  }

  /** `base` is `dom`, a dash, the decimal digits `s`, and `ext`. */
  ghost predicate Suffixed(dom: string, ext: string, base: string, s: string) {
    base == dom + "-" + s + ext && s != "" && forall i | 0 <= i < |s| :: '0' <= s[i] <= '9'
  }

  lemma Reassociate(dom: string, s: string, ext: string)
    ensures dom + "-" + s + ext == dom + ("-" + s) + ext
  {
  }

  lemma SuffixedIs(dom: string, ext: string, base: string, s: string)
    requires Suffixed(dom, ext, base, s)
    ensures NewFormat(dom, ext, base) && Middle(dom, ext, base) == "-" + s && NumberOf(dom, ext, base) == ParseDec(s)
    ensures base != dom + ext
  {
    Reassociate(dom, s, ext);
    assert Middle(dom, ext, base) == "-" + s && ("-" + s)[1..] == s;
    assert |base| > |dom + ext|;
  }

  /** The names of the format, written out: nothing but the bare name and a suffix of digits. */
  lemma NewFormatExactly(dom: string, ext: string, base: string)
    ensures NewFormat(dom, ext, base) <==> base == dom + ext || exists s :: Suffixed(dom, ext, base, s)
  {
    if NewFormat(dom, ext, base) {
      var m := Middle(dom, ext, base);
      assert base == base[..|dom|] + m + base[|base| - |ext|..];
      if m != "" {
        var s := m[1..];
        assert m == "-" + s && forall i | 0 <= i < |s| :: s[i] in s;
        Reassociate(dom, s, ext);
        assert Suffixed(dom, ext, base, s);
      }
    }
    if base == dom + ext { BareIsNewFormat(dom, ext); }
    if s :| Suffixed(dom, ext, base, s) { SuffixedIs(dom, ext, base, s); }
  }

  /** A suffix with anything but digits in it is not in the format. */
  lemma OtherSuffixIsOld(dom: string, ext: string, s: string, i: nat)
    requires i < |s| && !('0' <= s[i] <= '9')
    ensures !NewFormat(dom, ext, dom + "-" + s + ext)
  {
    var base := dom + "-" + s + ext;
    Reassociate(dom, s, ext);
    assert Middle(dom, ext, base) == "-" + s && ("-" + s)[1..] == s && s[i] in s;
  }

  /** A suffix of digits is the number it counts for, with zeros in front. */
  lemma {:induction false} DigitsAreANumber(s: string) returns (zeros: string)
    requires IsDigits(s)
    ensures s == zeros + ToDec(ParseDec(s)) && forall c | c in zeros :: c == '0'
  {
    var init, c := s[..|s| - 1], s[|s| - 1];
    var d := c as int - '0' as int;
    assert c in s && s == init + [c];
    assert Digit(d) == c;
    if init == [] {
      assert ParseDec(s) == d;
      zeros := [];
    } else {
      assert forall x | x in init :: x in s;
      zeros := DigitsAreANumber(init);
      var v := ParseDec(init);
      assert ParseDec(s) == 10 * v + d;
      if v == 0 {
        zeros := init;
      } else {
        assert (10 * v + d) / 10 == v && (10 * v + d) % 10 == d;
      }
    }
  }

  // ---- the next name ----

  /** `r` is the name VMDiskPath returns for a directory holding exactly `names`. */
  ghost predicate IsNext(names: set<string>, dom: string, ext: string, r: string) {
    if forall b | b in names :: !NewFormat(dom, ext, b) then r == dom + ext
    else
      exists max: nat {:trigger Numbered(dom, ext, max + 1)} ::
        && r == Numbered(dom, ext, max + 1)
        && (forall b | b in names && NewFormat(dom, ext, b) :: NumberOf(dom, ext, b) <= max)
        && (max == 0 || exists b | b in names :: NewFormat(dom, ext, b) && NumberOf(dom, ext, b) == max)
  }

  /** The name is new in the directory and has the format. */
  lemma NextIsFresh(names: set<string>, dom: string, ext: string, r: string)
    requires IsNext(names, dom, ext, r)
    ensures r !in names && NewFormat(dom, ext, r)
  {
    if forall b | b in names :: !NewFormat(dom, ext, b) {
      BareIsNewFormat(dom, ext);
    } else {
      var max: nat :|
        && r == Numbered(dom, ext, max + 1)
        && (forall b | b in names && NewFormat(dom, ext, b) :: NumberOf(dom, ext, b) <= max);
      NumberedIsNewFormat(dom, ext, max + 1);
      assert NewFormat(dom, ext, r) && NumberOf(dom, ext, r) > max;
    }
  }

  lemma NextIsUnique(names: set<string>, dom: string, ext: string, r: string, r': string)
    requires IsNext(names, dom, ext, r) && IsNext(names, dom, ext, r')
    ensures r == r'
  {
  }

  ghost function MaxNumber(names: set<string>, dom: string, ext: string): (max: nat)
    ensures forall b | b in names && NewFormat(dom, ext, b) :: NumberOf(dom, ext, b) <= max
    ensures max == 0 || exists b | b in names :: NewFormat(dom, ext, b) && NumberOf(dom, ext, b) == max
  {
    if names == {} then 0
    else
      var b :| b in names;
      var rest := MaxNumber(names - {b}, dom, ext);
      if NewFormat(dom, ext, b) && NumberOf(dom, ext, b) > rest then NumberOf(dom, ext, b) else rest
  }

  /** The directory has a name that counts for `n`: the bare name for 1, a suffix for its number. */
  ghost predicate Counted(names: set<string>, dom: string, ext: string, n: nat) {
    (n == 1 && dom + ext in names) || exists b, s :: b in names && Suffixed(dom, ext, b, s) && ParseDec(s) == n
  }

  lemma CountedExactly(names: set<string>, dom: string, ext: string, n: nat)
    ensures Counted(names, dom, ext, n) <==> exists b :: b in names && NewFormat(dom, ext, b) && NumberOf(dom, ext, b) == n
  {
    BareIsNewFormat(dom, ext);
    assert Middle(dom, ext, dom + ext) == "";
    if b, s :| b in names && Suffixed(dom, ext, b, s) && ParseDec(s) == n { SuffixedIs(dom, ext, b, s); }
    if b :| b in names && NewFormat(dom, ext, b) && NumberOf(dom, ext, b) == n {
      NewFormatExactly(dom, ext, b);
      if b != dom + ext {
        var s :| Suffixed(dom, ext, b, s);
        SuffixedIs(dom, ext, b, s);
      }
    }
  }

  ghost predicate MaxCounted(names: set<string>, dom: string, ext: string, m: nat) {
    Counted(names, dom, ext, m) && forall n: nat | Counted(names, dom, ext, n) :: n <= m
  }

  lemma CountedMax(names: set<string>, dom: string, ext: string, b: string)
    requires b in names && NewFormat(dom, ext, b)
    ensures MaxCounted(names, dom, ext, MaxNumber(names, dom, ext))
    ensures forall m: nat | MaxCounted(names, dom, ext, m) :: m == MaxNumber(names, dom, ext)
  {
    var max := MaxNumber(names, dom, ext);
    CountedExactly(names, dom, ext, max);
    assert NumberOf(dom, ext, b) <= max;
    forall n: nat | Counted(names, dom, ext, n) ensures n <= max { CountedExactly(names, dom, ext, n); }
  }

  lemma NumberedNext(names: set<string>, dom: string, ext: string, r: string, b: string)
    requires b in names && NewFormat(dom, ext, b)
    ensures IsNext(names, dom, ext, r) <==> r == Numbered(dom, ext, MaxNumber(names, dom, ext) + 1)
  {
    var n := Numbered(dom, ext, MaxNumber(names, dom, ext) + 1);
    assert IsNext(names, dom, ext, n);
    if IsNext(names, dom, ext, r) { NextIsUnique(names, dom, ext, r, n); }
  }

  lemma CountsSomething(names: set<string>, dom: string, ext: string, b: string)
    requires b in names && NewFormat(dom, ext, b)
    ensures Counted(names, dom, ext, NumberOf(dom, ext, b))
  {
    CountedExactly(names, dom, ext, NumberOf(dom, ext, b));
  }

  /** The next name when nothing in the directory counts. */
  lemma NextWhenNothingCounts(names: set<string>, dom: string, ext: string, r: string)
    requires forall n: nat :: !Counted(names, dom, ext, n)
    ensures IsNext(names, dom, ext, r) <==> r == dom + ext
  {
    forall b | b in names ensures !NewFormat(dom, ext, b) {
      if NewFormat(dom, ext, b) { CountsSomething(names, dom, ext, b); }
    }
  }

  /** The next name when something does, and the most that counts is `m`. */
  lemma NextAfterTheMost(names: set<string>, dom: string, ext: string, m: nat, r: string)
    requires MaxCounted(names, dom, ext, m)
    ensures IsNext(names, dom, ext, r) <==> r == dom + "-" + ToDec(m + 1) + ext
  {
    CountedExactly(names, dom, ext, m);
    var b :| b in names && NewFormat(dom, ext, b) && NumberOf(dom, ext, b) == m;
    CountedMax(names, dom, ext, b);
    NumberedNext(names, dom, ext, r, b);
  }

  /** One of the two applies. */
  lemma SomethingIsTheMost(names: set<string>, dom: string, ext: string, n: nat)
    requires Counted(names, dom, ext, n)
    ensures exists m: nat :: MaxCounted(names, dom, ext, m)
  {
    CountedExactly(names, dom, ext, n);
    var b :| b in names && NewFormat(dom, ext, b) && NumberOf(dom, ext, b) == n;
    CountedMax(names, dom, ext, b);
  }

  /** The loop of VMDiskPath over the directory entries, in whatever order they come. */
  method NextName(names: set<string>, dom: string, ext: string) returns (r: string)
    ensures IsNext(names, dom, ext, r)
    ensures r !in names && NewFormat(dom, ext, r)
  {
    var maxN, seen := 0, false;
    var rest := names;
    while rest != {}
      invariant rest <= names
      invariant seen <==> exists b | b in names - rest :: NewFormat(dom, ext, b)
      invariant maxN >= 0
      invariant forall b | b in names - rest && NewFormat(dom, ext, b) :: NumberOf(dom, ext, b) <= maxN
      invariant maxN == 0 || exists b | b in names - rest :: NewFormat(dom, ext, b) && NumberOf(dom, ext, b) == maxN
      decreases rest
    {
      var base :| base in rest;
      rest := rest - {base};
      assert base in names - rest;
      if NewFormat(dom, ext, base) {
        seen := true;
        var stem := base[..|base| - |ext|];
        assert base == stem + ext && stem == dom + Middle(dom, ext, base);
        if stem == dom {
          assert Middle(dom, ext, base) == "";
          if maxN < 1 { maxN := 1; }
        } else {
          assert Middle(dom, ext, base) == stem[|dom|..] && stem[|dom| + 1..] == Middle(dom, ext, base)[1..];
          var n := ParseDec(stem[|dom| + 1..]);
          if n > maxN { maxN := n; }
        }
      }
    }
    assert names - rest == names;
    if !seen {
      r := dom + ext;
    } else {
      r := dom + "-" + ToDec(maxN + 1) + ext;
      assert r == Numbered(dom, ext, maxN + 1);
    }
    NextIsFresh(names, dom, ext, r);
  }

  /** Every directory has exactly one next name. */
  ghost function Next(names: set<string>, dom: string, ext: string): (r: string)
    ensures IsNext(names, dom, ext, r)
  {
    NextExists(names, dom, ext);
    var r :| IsNext(names, dom, ext, r);
    r
  }

  lemma NextExists(names: set<string>, dom: string, ext: string)
    ensures exists r :: IsNext(names, dom, ext, r)
  {
    if forall b | b in names :: !NewFormat(dom, ext, b) {
      assert IsNext(names, dom, ext, dom + ext);
    } else {
      var max := MaxNumber(names, dom, ext);
      assert IsNext(names, dom, ext, Numbered(dom, ext, max + 1));
    }
  }
}
