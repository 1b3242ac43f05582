/** The command line's flag parser (`parseFlags`). */
module FlagParser {

  predicate IsBoolFlag(f: string) {
    f in {"deep", "yes", "force", "no-pool", "no-backup", "ro", "json", "insecure", "secure", "help", "h", "enabled"}
  }

  predicate Dashed(s: string) {
    |s| >= 2 && s[0] == '-' && s[1] == '-'
  }

  predicate Boolean(s: string) {
    s == "true" || s == "false"
  }

  /** The position of the first '=', or the length. */
  function Index(s: string): (i: nat)
    ensures i <= |s| && (i < |s| ==> s[i] == '=') && '=' !in s[..i]
  {
    if s == [] || s[0] == '=' then 0
    else
      var i := 1 + Index(s[1..]);
      assert s[..i] == [s[0]] + s[1..][..i - 1];
      i
  }

  /** What a command line is made of. */
  datatype Item =
    | Assign(key: string, value: string)  // --key=value
    | Pair(key: string, value: string)    // --key value
    | Switch(key: string)                 // --key
    | Positional(text: string)

  function Tokens(it: Item): seq<string> {
    match it
    case Assign(k, v) => ["--" + k + "=" + v]
    case Pair(k, v) => ["--" + k, v]
    case Switch(k) => ["--" + k]
    case Positional(s) => [s]
  }

  function Print(items: seq<Item>): seq<string> {
    if items == [] then [] else Tokens(items[0]) + Print(items[1..])
  }

  function Flags(items: seq<Item>): map<string, string> {
    if items == [] then map[]
    else
      var m, last := Flags(items[..|items| - 1]), items[|items| - 1];
      match last
      case Assign(k, v) => m[k := v]
      case Pair(k, v) => m[k := v]
      case Switch(k) => m[k := "true"]
      case Positional(_) => m
  }

  function Positionals(items: seq<Item>): seq<string> {
    if items == [] then []
    else
      var last := items[|items| - 1];
      Positionals(items[..|items| - 1]) + if last.Positional? then [last.text] else []
  }

  /** The item is read back as itself when `rest` follows it. */
  predicate Legible(it: Item, rest: seq<string>) {
    match it
    case Assign(k, _) => '=' !in k
    case Pair(k, v) => '=' !in k && if IsBoolFlag(k) then Boolean(v) else !Dashed(v)
    case Switch(k) => '=' !in k && (rest == [] || if IsBoolFlag(k) then !Boolean(rest[0]) else Dashed(rest[0]))
    case Positional(s) => !Dashed(s)
  }

  predicate AllLegible(items: seq<Item>) {
    items == [] || (Legible(items[0], Print(items[1..])) && AllLegible(items[1..]))
  }

  /** The first item of a command line. */
  function First(args: seq<string>): Item
    requires args != []
  {
    if !Dashed(args[0]) then Positional(args[0])
    else
      var key := args[0][2..];
      var eq := Index(key);
      if eq < |key| then Assign(key[..eq], key[eq + 1..])
      else if IsBoolFlag(key) then
        if |args| > 1 && Boolean(args[1]) then Pair(key, args[1]) else Switch(key)
      else if |args| > 1 && !Dashed(args[1]) then Pair(key, args[1])
      else Switch(key)
  }

  function Items(args: seq<string>): seq<Item>
    decreases |args|
  {
    if args == [] then [] else [First(args)] + Items(args[|Tokens(First(args))|..])
  }

  lemma DashedParts(s: string)
    requires Dashed(s)
    ensures s == "--" + s[2..]
    ensures var key := s[2..]; var eq := Index(key); eq < |key| ==> s == "--" + key[..eq] + "=" + key[eq + 1..]
  {
    var key := s[2..];
    var eq := Index(key);
    assert s == "--" + key;
    if eq < |key| {
      Rejoin(key, eq);
      assert "--" + (key[..eq] + "=" + key[eq + 1..]) == "--" + key[..eq] + "=" + key[eq + 1..];
    }
  }

  lemma Rejoin(key: string, i: nat)
    requires i < |key| && key[i] == '='
    ensures key == key[..i] + "=" + key[i + 1..]
  {
  }

  lemma FirstIsPrefix(args: seq<string>)
    requires args != []
    ensures var n := |Tokens(First(args))|; n <= |args| && Tokens(First(args)) == args[..n] && Legible(First(args), args[n..])
  {
    if Dashed(args[0]) {
      DashedParts(args[0]);
      var key := args[0][2..];
      if Index(key) == |key| { assert key[..|key|] == key; }
    }
  }

  lemma ItemsStep(args: seq<string>)
    requires args != []
    ensures var it := First(args);
            && |Tokens(it)| <= |args| && args == Tokens(it) + args[|Tokens(it)|..]
            && Items(args) == [it] + Items(args[|Tokens(it)|..]) && Legible(it, args[|Tokens(it)|..])
  {
    FirstIsPrefix(args);
    var n := |Tokens(First(args))|;
    assert args == args[..n] + args[n..];
  }

  lemma PrintCons(it: Item, rest: seq<Item>)
    ensures Print([it] + rest) == Tokens(it) + Print(rest)
    ensures AllLegible([it] + rest) <==> Legible(it, Print(rest)) && AllLegible(rest)
  {
    assert ([it] + rest)[1..] == rest;
  }

  /** Every command line is its items printed: each argument is consumed exactly once, and the
      reading is legible. */
  lemma {:induction false} EveryArgumentOnce(args: seq<string>)
    ensures Print(Items(args)) == args && AllLegible(Items(args))
    decreases |args|
  {
    if args != [] {
      ItemsStep(args);
      var it := First(args);
      EveryArgumentOnce(args[|Tokens(it)|..]);
      PrintCons(it, Items(args[|Tokens(it)|..]));
    }
  }

  lemma IndexOfKey(k: string, tail: string)
    requires '=' !in k && (tail == [] || tail[0] == '=')
    ensures Index(k + tail) == |k|
  {
    var s := k + tail;
    var i := Index(s);
    assert forall j | 0 <= j < |k| :: s[j] == k[j] && k[j] in k;
    assert forall j | 0 <= j < i :: s[..i][j] == s[j];
    assert tail != [] ==> s[|k|] == '=';
  }

  lemma AssignReadBack(k: string, v: string)
    requires '=' !in k
    ensures var s := "--" + k + "=" + v;
            Dashed(s) && Index(s[2..]) == |k| < |s[2..]| && s[2..][..|k|] == k && s[2..][|k| + 1..] == v
  {
    var s := "--" + k + "=" + v;
    assert s[2..] == k + ("=" + v);
    IndexOfKey(k, "=" + v);
  }

  lemma KeyReadBack(k: string)
    requires '=' !in k
    ensures var s := "--" + k; Dashed(s) && s[2..] == k && Index(s[2..]) == |k|
  {
    IndexOfKey(k, "");
    assert k + "" == k;
  }

  lemma FirstOfPrinted(it: Item, rest: seq<string>)
    requires Legible(it, rest)
    ensures First(Tokens(it) + rest) == it
  {
    var args := Tokens(it) + rest;
    match it {
      case Assign(k, v) =>
        assert args[0] == "--" + k + "=" + v;
        AssignReadBack(k, v);
      case Pair(k, v) =>
        assert args[0] == "--" + k && args[1] == v;
        KeyReadBack(k);
      case Switch(k) =>
        assert args[0] == "--" + k && (rest != [] ==> args[1] == rest[0]);
        KeyReadBack(k);
      case Positional(_) =>
    }
  }

  lemma ItemsCons(it: Item, rest: seq<string>)
    requires Legible(it, rest)
    ensures Items(Tokens(it) + rest) == [it] + Items(rest)
  {
    FirstOfPrinted(it, rest);
    assert (Tokens(it) + rest)[|Tokens(it)|..] == rest;
  }

  /** Reading back what was printed gives the same items: `--key=value`, the spaced form, switches and
      positionals, in any order. */
  lemma {:induction false} ReadsBack(items: seq<Item>)
    requires AllLegible(items)
    ensures Items(Print(items)) == items
  {
    if items != [] {
      ReadsBack(items[1..]);
      ItemsCons(items[0], Print(items[1..]));
      assert items == [items[0]] + items[1..];
    }
  }

  /** Flags written as `--key=value` and positionals need no care about what follows them. */
  lemma {:induction false} AssignmentsAreLegible(items: seq<Item>)
    requires forall it | it in items :: match it
                                        case Assign(k, _) => '=' !in k
                                        case Pair(k, v) => '=' !in k && !IsBoolFlag(k) && !Dashed(v)
                                        case Switch(_) => false
                                        case Positional(s) => !Dashed(s)
    ensures AllLegible(items)
  {
    if items != [] {
      assert items[0] in items && forall it | it in items[1..] :: it in items;
      AssignmentsAreLegible(items[1..]);
    }
  }

  /** The items set exactly the entries of `m`. */
  ghost predicate Spells(items: seq<Item>, m: map<string, string>) {
    && (forall it | it in items && !it.Positional? :: !it.Switch? && it.key in m && m[it.key] == it.value)
    && (forall k | k in m :: exists i :: 0 <= i < |items| && !items[i].Positional? && items[i].key == k)
  }

  lemma {:induction false} FlagsSpelled(items: seq<Item>, m: map<string, string>)
    requires forall it | it in items && !it.Positional? :: !it.Switch? && it.key in m && m[it.key] == it.value
    ensures forall k :: k in Flags(items) <==> exists i :: 0 <= i < |items| && !items[i].Positional? && items[i].key == k
    ensures forall k | k in Flags(items) :: k in m && Flags(items)[k] == m[k]
  {
    if items != [] {
      var init, last := items[..|items| - 1], items[|items| - 1];
      assert last in items && forall it | it in init :: it in items;
      FlagsSpelled(init, m);
      forall k ensures k in Flags(items) <==> exists i :: 0 <= i < |items| && !items[i].Positional? && items[i].key == k {
        if k in Flags(init) {
          var i :| 0 <= i < |init| && !init[i].Positional? && init[i].key == k;
          assert items[i] == init[i];
        }
        if i :| 0 <= i < |items| && !items[i].Positional? && items[i].key == k {
          if i < |init| { assert init[i] == items[i]; }
        }
      }
    }
  }

  /** Round trip: a flag map written as `--key=value`, or spaced where the key takes a value, mixed in
      any order with positionals, is parsed back to the map and the positionals in order. */
  lemma MapRoundTrip(items: seq<Item>, m: map<string, string>)
    requires Spells(items, m)
    requires forall it | it in items :: match it
                                        case Assign(k, _) => '=' !in k
                                        case Pair(k, v) => '=' !in k && !IsBoolFlag(k) && !Dashed(v)
                                        case Switch(_) => false
                                        case Positional(s) => !Dashed(s)
    ensures Flags(Items(Print(items))) == m
    ensures Positionals(Items(Print(items))) == Positionals(items)
  {
    AssignmentsAreLegible(items);
    ReadsBack(items);
    FlagsSpelled(items, m);
    assert Flags(items).Keys == m.Keys;
  }

  /** The flags that are switches, written out. */
  const SWITCHES: seq<string> :=
    ["deep", "yes", "force", "no-pool", "no-backup", "ro", "json", "insecure", "secure", "help", "h", "enabled"]

  lemma SwitchNames(f: string)
    ensures IsBoolFlag(f) <==> f in SWITCHES
    ensures f in SWITCHES ==> '=' !in f
  {
    assert SWITCHES[0] == "deep" && SWITCHES[1] == "yes" && SWITCHES[2] == "force" && SWITCHES[3] == "no-pool";
    assert SWITCHES[4] == "no-backup" && SWITCHES[5] == "ro" && SWITCHES[6] == "json" && SWITCHES[7] == "insecure";
    assert SWITCHES[8] == "secure" && SWITCHES[9] == "help" && SWITCHES[10] == "h" && SWITCHES[11] == "enabled";
  }

  /** What the argument `x` after `--f` is: a switch takes it only when it is `true` or `false`, any other
      flag unless it starts with two dashes; otherwise it is read on its own. */
  lemma NextArgument(f: string, x: string, rest: seq<string>)
    requires '=' !in f
    ensures Items(["--" + f, x] + rest) ==
              if (if f in SWITCHES then x == "true" || x == "false" else !("--" <= x)) then [Pair(f, x)] + Items(rest)
              else [Switch(f)] + Items([x] + rest)
  {
    SwitchNames(f);
    assert Dashed(x) <==> "--" <= x;
    assert ["--" + f, x] + rest == ["--" + f] + ([x] + rest);
    if if f in SWITCHES then x == "true" || x == "false" else !("--" <= x) {
      ItemsCons(Pair(f, x), rest);
    } else {
      ItemsCons(Switch(f), [x] + rest);
    }
  }

  /** `--force x` leaves `x` a positional, and so does every other switch. */
  lemma SwitchLeavesPositional(f: string, x: string, rest: seq<string>)
    requires f in SWITCHES && x != "true" && x != "false" && !("--" <= x)
    ensures Items(["--" + f, x] + rest) == [Switch(f), Positional(x)] + Items(rest)
  {
    SwitchNames(f);
    NextArgument(f, x, rest);
    PositionalFirst(x, rest);
    Joined(Switch(f), Positional(x), Items(rest));
  }

  lemma PositionalFirst(x: string, rest: seq<string>)
    requires !("--" <= x)
    ensures Items([x] + rest) == [Positional(x)] + Items(rest)
  {
    ItemsCons(Positional(x), rest);
  }

  lemma Joined(a: Item, b: Item, rest: seq<Item>)
    ensures [a] + ([b] + rest) == [a, b] + rest
  {
  }

  lemma ItemsSnoc(done: seq<Item>, args: seq<string>, i: nat)
    requires i < |args| && Items(args) == done + Items(args[i..])
    ensures var it := First(args[i..]);
            && i + |Tokens(it)| <= |args|
            && Items(args) == done + [it] + Items(args[i + |Tokens(it)|..])
  {
    var it := First(args[i..]);
    ItemsStep(args[i..]);
    assert args[i..][|Tokens(it)|..] == args[i + |Tokens(it)|..];
    assert done + ([it] + Items(args[i + |Tokens(it)|..])) == done + [it] + Items(args[i + |Tokens(it)|..]);
  }

  lemma Snoc(done: seq<Item>, it: Item)
    ensures Positionals(done + [it]) == Positionals(done) + if it.Positional? then [it.text] else []
    ensures Flags(done + [it]) ==
              match it
              case Assign(k, v) => Flags(done)[k := v]
              case Pair(k, v) => Flags(done)[k := v]
              case Switch(k) => Flags(done)[k := "true"]
              case Positional(_) => Flags(done)
  {
    assert (done + [it])[..|done|] == done;
  }

  /** The number of arguments an item takes. */
  function Width(it: Item): nat {
    if it.Pair? then 2 else 1
  }

  lemma WidthOfTokens(it: Item)
    ensures |Tokens(it)| == Width(it)
  {
  }

  /** The item sets `key` to `value`. */
  predicate Sets(it: Item, key: string, value: string) {
    !it.Positional? && key == it.key && value == if it.Switch? then "true" else it.value
  }

  /** One dashed argument: the key and value it sets, and how many arguments that took. */
  method ReadFlag(args: seq<string>, i: nat) returns (key: string, value: string, width: nat)
    requires i < |args| && Dashed(args[i])
    ensures width == Width(First(args[i..])) && Sets(First(args[i..]), key, value)
  {
    assert args[i..][0] == args[i] && (i + 1 < |args| ==> args[i..][1] == args[i + 1]);
    key, value, width := args[i][2..], "true", 1;
    var eq := Index(key);
    if eq < |key| {
      key, value := key[..eq], key[eq + 1..];
    } else if IsBoolFlag(key) {
      if i + 1 < |args| && Boolean(args[i + 1]) {
        value, width := args[i + 1], 2;
      }
    } else if i + 1 < |args| && !Dashed(args[i + 1]) {
      value, width := args[i + 1], 2;
    }
  }

  /** `done` are the items of the first `i` arguments, and what they set. */
  ghost predicate ReadUpTo(args: seq<string>, i: nat, done: seq<Item>, flags: map<string, string>, pos: seq<string>) {
    i <= |args| && Items(args) == done + Items(args[i..]) && flags == Flags(done) && pos == Positionals(done)
  }

  lemma SetsSnoc(done: seq<Item>, it: Item, key: string, value: string)
    requires Sets(it, key, value)
    ensures Flags(done + [it]) == Flags(done)[key := value] && Positionals(done + [it]) == Positionals(done)
  {
    Snoc(done, it);
    assert Positionals(done) + [] == Positionals(done);
  }

  lemma FlagRead(args: seq<string>, i: nat, done: seq<Item>, flags: map<string, string>, pos: seq<string>,
                 key: string, value: string, it: Item, width: nat)
    requires i < |args| && ReadUpTo(args, i, done, flags, pos) && Sets(it, key, value)
    requires it == First(args[i..]) && width == Width(it)
    ensures ReadUpTo(args, i + width, done + [it], flags[key := value], pos)
  {
    ItemsSnoc(done, args, i);
    WidthOfTokens(it);
    SetsSnoc(done, it, key, value);
  }

  lemma PositionalRead(args: seq<string>, i: nat, done: seq<Item>, flags: map<string, string>, pos: seq<string>, it: Item)
    requires i < |args| && ReadUpTo(args, i, done, flags, pos) && !Dashed(args[i]) && it == First(args[i..])
    ensures ReadUpTo(args, i + 1, done + [it], flags, pos + [args[i]])
  {
    assert args[i..][0] == args[i];
    ItemsSnoc(done, args, i);
    Snoc(done, it);
  }

  /** One round of the loop, which reads the item `it`. */
  method ReadNext(args: seq<string>, i: nat, flags: map<string, string>, pos: seq<string>, ghost done: seq<Item>, ghost it: Item)
    returns (flags': map<string, string>, pos': seq<string>, i': nat)
    requires i < |args| && ReadUpTo(args, i, done, flags, pos) && it == First(args[i..])
    ensures i < i' && ReadUpTo(args, i', done + [it], flags', pos')
  {
    if Dashed(args[i]) {
      var key, value, width := ReadFlag(args, i);
      FlagRead(args, i, done, flags, pos, key, value, it, width);
      return flags[key := value], pos, i + width;
    } else {
      PositionalRead(args, i, done, flags, pos, it);
      return flags, pos + [args[i]], i + 1;
    }
  }

  method ParseFlags(args: seq<string>) returns (flags: map<string, string>, pos: seq<string>)
    ensures flags == Flags(Items(args)) && pos == Positionals(Items(args))
  {
    flags, pos := map[], [];
    var i: nat := 0;
    ghost var done: seq<Item> := [];
    assert args[0..] == args && [] + Items(args) == Items(args);
    while i < |args|
      invariant ReadUpTo(args, i, done, flags, pos)
      decreases |args| - i
    {
      ghost var it := First(args[i..]);
      flags, pos, i := ReadNext(args, i, flags, pos, done, it);
      done := done + [it];
    }
    assert done + [] == done;
  }
}
