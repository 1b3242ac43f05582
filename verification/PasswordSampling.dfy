/** Unbiased password characters by rejection sampling (`generatePasswordString`). */
module PasswordSampling {
  import opened Arithmetic
  import opened Wrappers

  const WORDS := 0x1_0000_0000

  newtype Word = x: int | 0 <= x < WORDS

  /** `n` consecutive characters. */
  function From(c: char, n: nat): (r: string)
    requires c as int + n <= 128
    ensures |r| == n && forall i | 0 <= i < n :: r[i] as int == c as int + i
  {
    seq(n, i requires 0 <= i < n => (c as int + i) as char)
  }

  const SIZE := 62

  /** Lower case, upper case, digits. */
  function Charset(): (r: string)
    ensures |r| == SIZE
    ensures forall i | 0 <= i < |r| :: r[i] as int == if i < 26 then 97 + i else if i < 52 then 65 + (i - 26) else 48 + (i - 52)
  {
    From('a', 26) + From('A', 26) + From('0', 10)
  }

  /** The largest multiple of `m` that is at most `n`; words from there on are rejected. */
  function MaxUnbiased(n: nat, m: nat): nat
    requires m > 0
  {
    n / m * m
  }

  predicate Accepted(w: Word) {
    w as int < MaxUnbiased(WORDS, SIZE)
  }

  function CharOf(w: Word): char {
    Charset()[w as int % SIZE]
  }

  /** The characters of the accepted words, in order. */
  function Sample(words: seq<Word>): string {
    if words == [] then []
    else
      var last := words[|words| - 1];
      Sample(words[..|words| - 1]) + if Accepted(last) then [CharOf(last)] else []
  }

  lemma {:induction false} SampleGrows(words: seq<Word>, i: nat)
    requires i <= |words|
    ensures |Sample(words[..i])| <= |Sample(words)|
  {
    if i < |words| {
      SampleGrows(words[..|words| - 1], i);
      assert words[..|words| - 1][..i] == words[..i];
    } else {
      assert words[..i] == words;
    }
  }

  /** `words` is what the random source will deliver before it fails.  The result is the sample of
      the words read, no more of which are read than needed; there is none exactly when the source
      does not hold enough accepted words. */
  method GeneratePasswordString(length: int, words: seq<Word>) returns (out: Option<string>, used: nat)
    ensures used <= |words|
    ensures out.Some? ==> |out.value| == (if length > 0 then length else 0) && out.value == Sample(words[..used])
    ensures out.Some? && used > 0 ==> Accepted(words[used - 1])
    ensures out.None? <==> |Sample(words)| < length
  {
    var s: string := [];
    used := 0;
    while |s| < length
      invariant used <= |words| && s == Sample(words[..used])
      invariant |s| <= if length > 0 then length else 0
      invariant length <= 0 ==> used == 0
      invariant used > 0 && |s| == length ==> Accepted(words[used - 1])
      decreases |words| - used
    {
      if used == |words| {
        assert words[..used] == words;
        return None, used;
      }
      var w := words[used];
      assert words[..used + 1][..used] == words[..used];
      used := used + 1;
      if !Accepted(w) { continue; }
      s := s + [CharOf(w)];
    }
    SampleGrows(words, used);
    out := Some(s);
  }

  // ---- every character is equally likely ----

  /** The accepted ones of the words below `n` that go to residue `k`. */
  function Fibre(n: nat, m: nat, k: nat): set<nat>
    requires k < m
  {
    set x: nat | x < MaxUnbiased(n, m) && x % m == k
  }

  function FibreUpTo(q: nat, m: nat, k: nat): set<nat>
    requires k < m
  {
    set x: nat | x < q * m && x % m == k
  }

  lemma InNextRow(q: nat, m: nat, k: nat, x: nat)
    requires k < m && q > 0
    ensures x in FibreUpTo(q, m, k) <==> x in FibreUpTo(q - 1, m, k) || x == (q - 1) * m + k
  {
    DivisionUnique(x, q - 1, m, k);
    DivisionUnique(x, x / m, m, x % m);
    MulMonotone(x / m + 1, q - 1, m);
    MulMonotone(q, x / m, m);
    assert q * m == (q - 1) * m + m;
  }

  lemma {:induction false} FibreSize(q: nat, m: nat, k: nat)
    requires k < m
    ensures |FibreUpTo(q, m, k)| == q
  {
    if q == 0 {
      assert FibreUpTo(0, m, k) == {};
    } else {
      FibreSize(q - 1, m, k);
      var next := (q - 1) * m + k;
      forall x: nat ensures x in FibreUpTo(q, m, k) <==> x in FibreUpTo(q - 1, m, k) + {next} {
        InNextRow(q, m, k, x);
      }
      assert FibreUpTo(q, m, k) == FibreUpTo(q - 1, m, k) + {next};
      assert next !in FibreUpTo(q - 1, m, k);
    }
  }

  /** For every charset size and every number of words: each residue gets the same number of accepted
      words, the number of words divided by the charset size, rounded down. */
  lemma EveryResidueEqual(n: nat, m: nat, k: nat)
    requires k < m
    ensures |Fibre(n, m, k)| == n / m
  {
    FibreSize(n / m, m, k);
    assert Fibre(n, m, k) == FibreUpTo(n / m, m, k);
  }

  /** The charset has no character twice, so equal residues are equal characters. */
  lemma CharsetDistinct(i: nat, j: nat)
    requires i < j < |Charset()|
    ensures Charset()[i] != Charset()[j]
  {
  }

  predicate Gives(x: nat, c: char) {
    x < WORDS && Accepted(x as Word) && CharOf(x as Word) == c
  }

  /** The words that give one character of the charset. */
  ghost function WordsFor(c: char): set<nat> {
    set x: nat | x < WORDS && Gives(x, c)
  }

  /** Every character of the charset comes from the same number of words. */
  lemma EveryCharEqual(k: nat)
    requires k < |Charset()|
    ensures |WordsFor(Charset()[k])| == WORDS / |Charset()|
  {
    var m := |Charset()|;
    EveryResidueEqual(WORDS, m, k);
    forall x: nat ensures x in WordsFor(Charset()[k]) <==> x in Fibre(WORDS, m, k) {
      if x < WORDS && x % m != k {
        if x % m < k { CharsetDistinct(x % m, k); } else { CharsetDistinct(k, x % m); }
      }
    }
    assert WordsFor(Charset()[k]) == Fibre(WORDS, m, k);
  }

  // ---- every password is equally likely ----

  /** The word sequences, all accepted, that give the password `s`, `s` being given by residues. */
  ghost function Preimages(n: nat, m: nat, s: seq<nat>): set<seq<nat>>
    requires forall k | k in s :: k < m
  {
    if s == [] then {[]}
    else
      assert s[0] in s && forall k | k in s[1..] :: k in s;
      set x, r | x in Fibre(n, m, s[0]) && r in Preimages(n, m, s[1..]) :: [x] + r
  }

  lemma {:induction false} PreimagesExact(n: nat, m: nat, s: seq<nat>, ws: seq<nat>)
    requires m > 0 && forall k | k in s :: k < m
    ensures ws in Preimages(n, m, s) <==>
              |ws| == |s| && forall i | 0 <= i < |ws| :: ws[i] < MaxUnbiased(n, m) && ws[i] % m == s[i]
    decreases |s|
  {
    if s != [] && |ws| == |s| {
      assert s[0] in s && forall k | k in s[1..] :: k in s;
      assert ws == [ws[0]] + ws[1..];
      PreimagesExact(n, m, s[1..], ws[1..]);
      if ws in Preimages(n, m, s) {
        var x, r :| x in Fibre(n, m, s[0]) && r in Preimages(n, m, s[1..]) && ws == [x] + r;
        assert x == ws[0] && r == ws[1..];
      }
    } else if s != [] && ws in Preimages(n, m, s) {
      assert s[0] in s && forall k | k in s[1..] :: k in s;
      var x, r :| x in Fibre(n, m, s[0]) && r in Preimages(n, m, s[1..]) && ws == [x] + r;
      PreimagesExact(n, m, s[1..], r);
    }
  }

  function Power(b: nat, e: nat): nat {
    if e == 0 then 1 else b * Power(b, e - 1)
  }

  function Prefixed(heads: set<nat>, tails: set<seq<nat>>): set<seq<nat>> {
    set x, r | x in heads && r in tails :: [x] + r
  }

  lemma InPrefixed(heads: set<nat>, tails: set<seq<nat>>, w: seq<nat>)
    ensures w in Prefixed(heads, tails) <==> w != [] && w[0] in heads && w[1..] in tails
  {
    if w != [] { assert w == [w[0]] + w[1..]; }
    if w in Prefixed(heads, tails) {
      var x, r :| x in heads && r in tails && w == [x] + r;
      assert w[1..] == r;
    }
  }

  lemma {:induction false} OneHead(x: nat, tails: set<seq<nat>>)
    ensures |Prefixed({x}, tails)| == |tails|
  {
    if tails == {} {
      assert Prefixed({x}, tails) == {};
    } else {
      var r :| r in tails;
      var rest := tails - {r};
      OneHead(x, rest);
      var w := [x] + r;
      assert w[1..] == r;
      InPrefixed({x}, rest, w);
      forall v ensures v in Prefixed({x}, tails) <==> v in Prefixed({x}, rest) + {w} {
        InPrefixed({x}, tails, v);
        InPrefixed({x}, rest, v);
        if v != [] { assert v == [v[0]] + v[1..]; }
      }
      assert Prefixed({x}, tails) == Prefixed({x}, rest) + {w};
    }
  }

  lemma {:induction false} ProductSize(heads: set<nat>, tails: set<seq<nat>>)
    ensures |Prefixed(heads, tails)| == |heads| * |tails|
  {
    if heads == {} {
      assert Prefixed(heads, tails) == {};
    } else {
      var x :| x in heads;
      var rest := heads - {x};
      ProductSize(rest, tails);
      OneHead(x, tails);
      HeadsSplit(heads, x, tails);
      assert |heads| * |tails| == |rest| * |tails| + |tails|;
    }
  }

  lemma HeadsSplit(heads: set<nat>, x: nat, tails: set<seq<nat>>)
    requires x in heads
    ensures |Prefixed(heads, tails)| == |Prefixed(heads - {x}, tails)| + |Prefixed({x}, tails)|
  {
    var rest := heads - {x};
    forall w ensures w in Prefixed(heads, tails) <==> w in Prefixed(rest, tails) + Prefixed({x}, tails) {
      InPrefixed(heads, tails, w);
      InPrefixed(rest, tails, w);
      InPrefixed({x}, tails, w);
    }
    forall w ensures !(w in Prefixed(rest, tails) && w in Prefixed({x}, tails)) {
      InPrefixed(rest, tails, w);
      InPrefixed({x}, tails, w);
    }
    assert Prefixed(heads, tails) == Prefixed(rest, tails) + Prefixed({x}, tails);
  }

  /** All passwords of a length come from the same number of sequences of accepted words. */
  lemma {:induction false} EveryPasswordEqual(n: nat, m: nat, s: seq<nat>)
    requires m > 0 && forall k | k in s :: k < m
    ensures |Preimages(n, m, s)| == Power(n / m, |s|)
  {
    if s != [] {
      assert s[0] in s && forall k | k in s[1..] :: k in s;
      EveryPasswordEqual(n, m, s[1..]);
      EveryResidueEqual(n, m, s[0]);
      ProductSize(Fibre(n, m, s[0]), Preimages(n, m, s[1..]));
      assert Preimages(n, m, s) == Prefixed(Fibre(n, m, s[0]), Preimages(n, m, s[1..]));
    }
  }

  lemma SampleSnoc(init: seq<Word>, last: Word)
    requires Accepted(last)
    ensures Sample(init + [last]) == Sample(init) + [CharOf(last)]
  {
    assert (init + [last])[..|init|] == init;
  }

  ghost predicate SampledAt(words: seq<Word>, i: nat)
    requires i < |words|
  {
    i < |Sample(words)| && Sample(words)[i] == CharOf(words[i])
  }

  lemma {:induction false} SampledEverywhere(words: seq<Word>, i: nat)
    requires i < |words| && forall w | w in words :: Accepted(w)
    ensures |Sample(words)| == |words| && SampledAt(words, i)
  {
    var init, last := words[..|words| - 1], words[|words| - 1];
    assert words == init + [last] && last in words && forall w | w in init :: w in words;
    SampleSnoc(init, last);
    if init != [] { SampledEverywhere(init, if i < |init| then i else 0); }
  }

  /** A sequence of accepted words gives the password of its residues. */
  lemma SampleOfAccepted(words: seq<Word>)
    requires forall w | w in words :: Accepted(w)
    ensures |Sample(words)| == |words|
    ensures forall i | 0 <= i < |words| :: Sample(words)[i] == Charset()[words[i] as int % SIZE]
  {
    if words != [] { SampledEverywhere(words, 0); }
    forall i | 0 <= i < |words| ensures SampledAt(words, i) { SampledEverywhere(words, i); }
  }
}
